/**
 One pass of the embedding pump (`drainEmbeddings`, apps/worker/src/embedding.ts): N consumers that
 share the pass's counters and run in turn between their waits.
 */
module EmbeddingPass {
  import opened Outcomes

  type Record = nat

  datatype Failure = EngineRefused | EngineUnavailable | CompletionFailed

  datatype FailureOutcome = Retry | Recorded | Requeued | Superseded

  datatype FailedAttempt = FailedAttempt(record: Record, failure: Failure, outcome: FailureOutcome)

  datatype Ending = Failing | Stopped

  /** Why a consumer returned. */
  datatype Leave = NothingClaimable | PassEnded | ClaimThrew(error: nat)

  /** What a consumer waits for. */
  datatype Phase =
    | Ready
    | Claiming
    | Writing(record: Record)
    | Completing(record: Record)
    | Counting(record: Record, failure: Failure)
    | Left(leave: Leave)

  datatype PassState = PassState(
    phases: seq<Phase>,
    claimed: nat,
    embedded: nat,
    consecutiveFailures: nat,
    ended: Option<Ending>,
    failed: seq<FailedAttempt>)

  datatype ClaimAnswer = Claimed(record: Record) | Nothing | Refused(error: nat)

  /** What happens to one consumer next. */
  datatype Event =
    | Proceed(shouldStop: bool)
    | ClaimAnswered(answer: ClaimAnswer)
    | EngineAnswered(failure: Option<Failure>)
    | CompletionAnswered(threw: bool)
    | FailureCounted(outcome: Option<FailureOutcome>)

  datatype Action = Action(consumer: nat, event: Event)

  predicate Enabled(s: PassState, a: Action) {
    && a.consumer < |s.phases|
    && match a.event
       case Proceed(_) => s.phases[a.consumer].Ready?
       case ClaimAnswered(_) => s.phases[a.consumer].Claiming?
       case EngineAnswered(failure) => s.phases[a.consumer].Writing? && failure != Some(CompletionFailed)
       case CompletionAnswered(_) => s.phases[a.consumer].Completing?
       case FailureCounted(_) => s.phases[a.consumer].Counting?
  }

  /** The head of the loop, up to the claim. */
  function Proceeded(s: PassState, i: nat, limit: nat, shouldStop: bool): PassState
    requires i < |s.phases|
  {
    if s.ended.Some? then s.(phases := s.phases[i := Left(PassEnded)])
    else if shouldStop then s.(phases := s.phases[i := Left(PassEnded)], ended := Some(Stopped))
    else if s.consecutiveFailures >= limit then s.(phases := s.phases[i := Left(PassEnded)], ended := Some(Failing))
    else s.(phases := s.phases[i := Claiming])
  }

  function OrFailing(ended: Option<Ending>): Option<Ending> {
    if ended == None then Some(Failing) else ended
  }

  function Next(s: PassState, limit: nat, a: Action): PassState
    requires Enabled(s, a)
  {
    var i := a.consumer;
    match a.event
    case Proceed(shouldStop) => Proceeded(s, i, limit, shouldStop)
    case ClaimAnswered(Claimed(record)) => s.(phases := s.phases[i := Writing(record)], claimed := s.claimed + 1)
    case ClaimAnswered(Nothing) => s.(phases := s.phases[i := Left(NothingClaimable)])
    case ClaimAnswered(Refused(error)) => s.(phases := s.phases[i := Left(ClaimThrew(error))], ended := OrFailing(s.ended))
    case EngineAnswered(None) => s.(phases := s.phases[i := Completing(s.phases[i].record)])
    case EngineAnswered(Some(failure)) =>
      s.(phases := s.phases[i := Counting(s.phases[i].record, failure)], consecutiveFailures := s.consecutiveFailures + 1)
    case CompletionAnswered(true) =>
      s.(phases := s.phases[i := Counting(s.phases[i].record, CompletionFailed)], consecutiveFailures := s.consecutiveFailures + 1)
    case CompletionAnswered(false) =>
      s.(phases := s.phases[i := Ready], consecutiveFailures := 0, embedded := s.embedded + 1)
    case FailureCounted(outcome) =>
      var recorded := if outcome.Some? then outcome.value else Retry;
      s.(phases := s.phases[i := Ready],
         failed := s.failed + [FailedAttempt(s.phases[i].record, s.phases[i].failure, recorded)])
  }

  // --- The pass as it is written --------------------------------------------------------------

  /** The variables `drainEmbeddings` shares among its consumers; each method runs between two waits. */
  class Pass {
    const limit: nat
    var phases: seq<Phase>
    var claimed: nat
    var embedded: nat
    var consecutiveFailures: nat
    var ended: Option<Ending>
    var failed: seq<FailedAttempt>

    constructor (concurrency: nat, failureLimit: nat)
      ensures limit == failureLimit && Abstract() == Opening(concurrency)
    {
      limit := failureLimit;
      phases := seq(concurrency, i => Ready);
      claimed, embedded, consecutiveFailures := 0, 0, 0;
      ended := None;
      failed := [];
    }

    ghost function Abstract(): PassState
      reads this
    {
      PassState(phases, claimed, embedded, consecutiveFailures, ended, failed)
    }

    /** The head of `consume`'s loop. */
    method Consume(i: nat, shouldStop: bool)
      requires Enabled(Abstract(), Action(i, Proceed(shouldStop)))
      modifies this
      ensures Abstract() == Next(old(Abstract()), limit, Action(i, Proceed(shouldStop)))
    {
      if ended != None {
        phases := phases[i := Left(PassEnded)];
        return;
      }
      if shouldStop {
        ended := Some(Stopped);
        phases := phases[i := Left(PassEnded)];
        return;
      }
      if consecutiveFailures >= limit {
        ended := Some(Failing);
        phases := phases[i := Left(PassEnded)];
        return;
      }
      phases := phases[i := Claiming];
    }

    /** After the claim's transaction. */
    method AfterClaim(i: nat, answer: ClaimAnswer)
      requires Enabled(Abstract(), Action(i, ClaimAnswered(answer)))
      modifies this
      ensures Abstract() == Next(old(Abstract()), limit, Action(i, ClaimAnswered(answer)))
    {
      match answer {
        case Refused(error) =>
          if ended == None {
            ended := Some(Failing);
          }
          phases := phases[i := Left(ClaimThrew(error))];
        case Nothing =>
          phases := phases[i := Left(NothingClaimable)];
        case Claimed(record) =>
          claimed := claimed + 1;
          phases := phases[i := Writing(record)];
      }
    }

    /** The start of `fail`, up to its transaction. */
    method StartFail(i: nat, failure: Failure)
      requires i < |phases| && (phases[i].Writing? || phases[i].Completing?)
      modifies this
      ensures Abstract() == old(Abstract().(
                phases := phases[i := Counting(phases[i].record, failure)],
                consecutiveFailures := consecutiveFailures + 1))
    {
      consecutiveFailures := consecutiveFailures + 1;
      phases := phases[i := Counting(phases[i].record, failure)];
    }

    /** After the engine's answer, or its absence. */
    method AfterWrite(i: nat, failure: Option<Failure>)
      requires Enabled(Abstract(), Action(i, EngineAnswered(failure)))
      modifies this
      ensures Abstract() == Next(old(Abstract()), limit, Action(i, EngineAnswered(failure)))
    {
      if failure.Some? {
        StartFail(i, failure.value);
      } else {
        phases := phases[i := Completing(phases[i].record)];
      }
    }

    /** After the completion's transaction. */
    method AfterCompletion(i: nat, threw: bool)
      requires Enabled(Abstract(), Action(i, CompletionAnswered(threw)))
      modifies this
      ensures Abstract() == Next(old(Abstract()), limit, Action(i, CompletionAnswered(threw)))
    {
      if threw {
        StartFail(i, CompletionFailed);
      } else {
        consecutiveFailures := 0;
        embedded := embedded + 1;
        phases := phases[i := Ready];
      }
    }

    /** The end of `fail`: an outcome, or `retry` when the database could not count it. */
    method AfterFail(i: nat, outcome: Option<FailureOutcome>)
      requires Enabled(Abstract(), Action(i, FailureCounted(outcome)))
      modifies this
      ensures Abstract() == Next(old(Abstract()), limit, Action(i, FailureCounted(outcome)))
    {
      var recorded := if outcome.Some? then outcome.value else Retry;
      failed := failed + [FailedAttempt(phases[i].record, phases[i].failure, recorded)];
      phases := phases[i := Ready];
    }
  }

  // --- Interleavings --------------------------------------------------------------------------

  function Opening(concurrency: nat): PassState {
    PassState(seq(concurrency, i => Ready), 0, 0, 0, None, [])
  }

  function Play(s: PassState, limit: nat, actions: seq<Action>): Option<PassState>
    decreases actions
  {
    if actions == [] then Some(s)
    else if !Enabled(s, actions[0]) then None
    else Play(Next(s, limit, actions[0]), limit, actions[1..])
  }

  /** A claimed record whose attempt has not ended. */
  predicate InFlight(p: Phase) {
    p.Writing? || p.Completing? || p.Counting?
  }

  /** Past the failure check, with an attempt that may yet fail. */
  predicate MayFail(p: Phase) {
    p.Claiming? || p.Writing? || p.Completing?
  }

  function Count(phases: seq<Phase>, f: Phase -> bool): (n: nat)
    ensures n <= |phases|
  {
    if phases == [] then 0 else (if f(phases[0]) then 1 else 0) + Count(phases[1..], f)
  }

  lemma {:induction false} CountChanged(phases: seq<Phase>, i: nat, p: Phase, f: Phase -> bool)
    requires i < |phases|
    ensures Count(phases[i := p], f)
         == Count(phases, f) - (if f(phases[i]) then 1 else 0) + (if f(p) then 1 else 0)
  {
    if i > 0 {
      CountChanged(phases[1..], i - 1, p, f);
      assert phases[i := p][1..] == phases[1..][i - 1 := p];
    } else {
      assert phases[0 := p][1..] == phases[1..];
    }
  }

  lemma {:induction false} CountNone(phases: seq<Phase>, f: Phase -> bool)
    requires forall i :: 0 <= i < |phases| ==> !f(phases[i])
    ensures Count(phases, f) == 0
  {
    if phases != [] {
      CountNone(phases[1..], f);
    }
  }

  /** Every claim is embedded, failed or still in flight. */
  ghost predicate Balanced(s: PassState) {
    s.claimed == s.embedded + |s.failed| + Count(s.phases, InFlight)
  }

  /** The failures in a row, and the attempts that may still fail, stay within the bound. */
  ghost predicate Bounded(s: PassState, limit: nat) {
    s.consecutiveFailures + Count(s.phases, MayFail) <= limit + |s.phases| - 1
  }

  /** Until the pass is ended, a consumer leaves only when nothing is claimable. */
  ghost predicate LeavesExplained(s: PassState) {
    s.ended == None ==> forall i :: 0 <= i < |s.phases| && s.phases[i].Left? ==> s.phases[i].leave == NothingClaimable
  }

  ghost predicate Sound(s: PassState, limit: nat) {
    Balanced(s) && Bounded(s, limit) && LeavesExplained(s)
  }

  lemma OpeningSound(concurrency: nat, limit: nat)
    requires concurrency > 0 && limit > 0
    ensures Sound(Opening(concurrency), limit)
  {
    CountNone(Opening(concurrency).phases, InFlight);
    CountNone(Opening(concurrency).phases, MayFail);
  }

  lemma MayFailRoom(s: PassState, limit: nat, i: nat)
    requires i < |s.phases| && s.phases[i].Ready?
    ensures Count(s.phases, MayFail) <= |s.phases| - 1
  {
    CountChanged(s.phases, i, Claiming, MayFail);
  }

  lemma NextKeeps(s: PassState, limit: nat, a: Action)
    requires limit > 0 && Sound(s, limit) && Enabled(s, a)
    ensures Sound(Next(s, limit, a), limit)
    ensures |Next(s, limit, a).phases| == |s.phases|
  {
    var t, i := Next(s, limit, a), a.consumer;
    hide Count;
    CountChanged(s.phases, i, t.phases[i], InFlight);
    CountChanged(s.phases, i, t.phases[i], MayFail);
    assert t.phases == s.phases[i := t.phases[i]];
    if a.event.Proceed? {
      MayFailRoom(s, limit, i);
    }
  }

  // --- Main results ---------------------------------------------------------------------------

  lemma {:induction false} PlayKeeps(s: PassState, limit: nat, actions: seq<Action>)
    requires limit > 0 && Sound(s, limit) && Play(s, limit, actions).Some?
    ensures Sound(Play(s, limit, actions).value, limit)
    ensures |Play(s, limit, actions).value.phases| == |s.phases|
    decreases actions
  {
    if actions != [] {
      hide Next, Enabled, Sound;
      NextKeeps(s, limit, actions[0]);
      PlayKeeps(Next(s, limit, actions[0]), limit, actions[1..]);
    }
  }

  /**
   Under every interleaving: claimed is embedded plus failed plus in flight, at most N are in flight,
   and once every consumer has left nothing is; a pass that ended of itself found nothing claimable
   at every consumer.
   */
  lemma {:induction false} PassAccounts(concurrency: nat, limit: nat, actions: seq<Action>)
    requires concurrency > 0 && limit > 0 && Play(Opening(concurrency), limit, actions).Some?
    ensures var s := Play(Opening(concurrency), limit, actions).value;
            var flying := Count(s.phases, InFlight);
            && s.claimed == s.embedded + |s.failed| + flying
            && flying <= concurrency
            && s.consecutiveFailures <= limit + concurrency - 1
            && ((forall i :: 0 <= i < |s.phases| ==> s.phases[i].Left?) ==>
                  && s.claimed == s.embedded + |s.failed|
                  && (s.ended == None ==> forall i :: 0 <= i < |s.phases| ==> s.phases[i] == Left(NothingClaimable)))
  {
    OpeningSound(concurrency, limit);
    PlayKeeps(Opening(concurrency), limit, actions);
    var s := Play(Opening(concurrency), limit, actions).value;
    if forall i :: 0 <= i < |s.phases| ==> s.phases[i].Left? {
      CountNone(s.phases, InFlight);
    }
  }

  /** What a step says of an attempt: nothing, or whether it embedded its record. */
  function Verdict(e: Event): (verdict: seq<bool>)
    ensures |verdict| <= 1
  {
    match e
    case EngineAnswered(Some(_)) => [false]
    case CompletionAnswered(threw) => [!threw]
    case _ => []
  }

  /** Whether each ended attempt embedded its record, in the order they ended. */
  function Attempts(s: PassState, limit: nat, actions: seq<Action>): seq<bool>
    requires Play(s, limit, actions).Some?
    decreases actions
  {
    if actions == [] then []
    else
      Verdict(actions[0].event) + Attempts(Next(s, limit, actions[0]), limit, actions[1..])
  }

  /** How many failures come first. */
  function FailureRun(attempts: seq<bool>): (n: nat)
    ensures n <= |attempts|
  {
    if attempts == [] || attempts[0] then 0 else 1 + FailureRun(attempts[1..])
  }

  /** From any reachable point, the failures before the next success, with those before it, stay bounded. */
  lemma {:induction false} FailuresAhead(s: PassState, limit: nat, actions: seq<Action>)
    requires limit > 0 && Sound(s, limit) && Play(s, limit, actions).Some?
    ensures s.consecutiveFailures + FailureRun(Attempts(s, limit, actions)) <= limit + |s.phases| - 1
    decreases actions
  {
    if actions != [] {
      var t := Next(s, limit, actions[0]);
      NextKeeps(s, limit, actions[0]);
      FailuresAhead(t, limit, actions[1..]);
      AttemptsHead(s, limit, actions);
    }
  }

  lemma AttemptsHead(s: PassState, limit: nat, actions: seq<Action>)
    requires actions != [] && Play(s, limit, actions).Some?
    ensures var t, rest := Next(s, limit, actions[0]), Attempts(Next(s, limit, actions[0]), limit, actions[1..]);
            var run := FailureRun(Attempts(s, limit, actions));
            || (run == 0 && t.consecutiveFailures == 0)
            || (run == 1 + FailureRun(rest) && t.consecutiveFailures == s.consecutiveFailures + 1)
            || (run == FailureRun(rest) && t.consecutiveFailures == s.consecutiveFailures)
  {
    var rest := Attempts(Next(s, limit, actions[0]), limit, actions[1..]);
    assert ([false] + rest)[1..] == rest;
    assert [] + rest == rest;
  }

  lemma DropAhead(ahead: seq<bool>, rest: seq<bool>, from: nat)
    requires |ahead| <= from <= |ahead| + |rest|
    ensures (ahead + rest)[from..] == rest[from - |ahead|..]
  {}

  /** No run of failures without a success, anywhere in the pass, is longer than failureLimit + N − 1. */
  lemma {:induction false} FailureRunsBounded(s: PassState, limit: nat, actions: seq<Action>, from: nat)
    requires limit > 0 && Sound(s, limit) && Play(s, limit, actions).Some?
    requires from <= |Attempts(s, limit, actions)|
    ensures FailureRun(Attempts(s, limit, actions)[from..]) <= limit + |s.phases| - 1
    decreases actions
  {
    var all := Attempts(s, limit, actions);
    if from == 0 {
      assert all[0..] == all;
      FailuresAhead(s, limit, actions);
    } else {
      var ahead := Verdict(actions[0].event);
      hide Next, Enabled, Sound, FailureRun, Verdict;
      NextKeeps(s, limit, actions[0]);
      DropAhead(ahead, Attempts(Next(s, limit, actions[0]), limit, actions[1..]), from);
      FailureRunsBounded(Next(s, limit, actions[0]), limit, actions[1..], from - |ahead|);
    }
  }

  // --- What the events so far say -------------------------------------------------------------

  /** The last thing that happened to consumer `i`. */
  function LastOf(actions: seq<Action>, i: nat): Option<Event> {
    if actions == [] then None
    else
      var last := actions[|actions| - 1];
      if last.consumer == i then Some(last.event) else LastOf(actions[..|actions| - 1], i)
  }

  /** The record consumer `i` claimed last. */
  function Held(actions: seq<Action>, i: nat): Option<Record> {
    if actions == [] then None
    else
      match actions[|actions| - 1]
      case Action(j, ClaimAnswered(Claimed(record))) => if j == i then Some(record) else Held(actions[..|actions| - 1], i)
      case _ => Held(actions[..|actions| - 1], i)
  }

  predicate Succeeds(e: Event) {
    e == CompletionAnswered(false)
  }

  /** The engine refused or was not there, or the completion threw. */
  predicate Fails(e: Event) {
    e == CompletionAnswered(true) || (e.EngineAnswered? && e.failure.Some?)
  }

  function Successes(actions: seq<Action>): nat {
    if actions == [] then 0
    else Successes(actions[..|actions| - 1]) + if Succeeds(actions[|actions| - 1].event) then 1 else 0
  }

  /** The failures since the last success. */
  function FailuresInARow(actions: seq<Action>): nat {
    if actions == [] || Succeeds(actions[|actions| - 1].event) then 0
    else FailuresInARow(actions[..|actions| - 1]) + if Fails(actions[|actions| - 1].event) then 1 else 0
  }

  /** What ends the pass, if anything has: the first stop asked for, count that reached the limit, or claim that threw. */
  function EndedBy(actions: seq<Action>, limit: nat): Option<Ending> {
    if actions == [] then None
    else
      var before := actions[..|actions| - 1];
      if EndedBy(before, limit).Some? then EndedBy(before, limit)
      else
        match actions[|actions| - 1].event
        case Proceed(true) => Some(Stopped)
        case Proceed(false) => if FailuresInARow(before) >= limit then Some(Failing) else None
        case ClaimAnswered(Refused(_)) => Some(Failing)
        case _ => None
  }

  /** An attempt of consumer `i` that has failed, with what was recorded of it. */
  ghost predicate IsFailedAttempt(actions: seq<Action>, i: nat, attempt: FailedAttempt) {
    && Held(actions, i) == Some(attempt.record)
    && (LastOf(actions, i) == Some(EngineAnswered(Some(attempt.failure)))
        || (LastOf(actions, i) == Some(CompletionAnswered(true)) && attempt.failure == CompletionFailed))
  }

  /** The failed attempts listed: one for each failure counted, in that order, `retry` when it could not be counted. */
  ghost predicate ListsFailures(failed: seq<FailedAttempt>, actions: seq<Action>) {
    if actions == [] then failed == []
    else
      var before, last := actions[..|actions| - 1], actions[|actions| - 1];
      match last.event
      case FailureCounted(outcome) =>
        && failed != []
        && ListsFailures(failed[..|failed| - 1], before)
        && IsFailedAttempt(before, last.consumer, failed[|failed| - 1])
        && failed[|failed| - 1].outcome == (match outcome case Some(o) => o case None => Retry)
      case _ => ListsFailures(failed, before)
  }

  /** Where a consumer is, and why: its last event, and the record it holds. */
  ghost predicate PhaseExplained(p: Phase, actions: seq<Action>, i: nat) {
    var last := LastOf(actions, i);
    match p
    case Ready => last == None || last == Some(CompletionAnswered(false)) || (last.Some? && last.value.FailureCounted?)
    case Claiming => last == Some(Proceed(false))
    case Writing(record) => last == Some(ClaimAnswered(Claimed(record))) && Held(actions, i) == Some(record)
    case Completing(record) => last == Some(EngineAnswered(None)) && Held(actions, i) == Some(record)
    case Counting(record, failure) => IsFailedAttempt(actions, i, FailedAttempt(record, failure, Retry))
    case Left(NothingClaimable) => last == Some(ClaimAnswered(Nothing))
    case Left(ClaimThrew(error)) => last == Some(ClaimAnswered(Refused(error)))
    case Left(PassEnded) => last.Some? && last.value.Proceed?
  }

  ghost predicate InStep(s: PassState, actions: seq<Action>, limit: nat) {
    && s.claimed == |Claims(actions)|
    && s.embedded == Successes(actions)
    && s.consecutiveFailures == FailuresInARow(actions)
    && s.ended == EndedBy(actions, limit)
    && ListsFailures(s.failed, actions)
    && forall i :: 0 <= i < |s.phases| ==> PhaseExplained(s.phases[i], actions, i)
  }

  lemma {:induction false} LastAdded(actions: seq<Action>, a: Action, i: nat)
    ensures LastOf(actions + [a], i) == if a.consumer == i then Some(a.event) else LastOf(actions, i)
    ensures Held(actions + [a], i) ==
            if a.consumer == i && a.event.ClaimAnswered? && a.event.answer.Claimed? then Some(a.event.answer.record)
            else Held(actions, i)
  {
    assert (actions + [a])[..|actions|] == actions;
  }

  lemma {:induction false} OthersExplained(p: Phase, actions: seq<Action>, last: Action, i: nat)
    requires last.consumer != i && PhaseExplained(p, actions, i)
    ensures PhaseExplained(p, actions + [last], i)
  {
    hide LastOf, Held;
    LastAdded(actions, last, i);
  }

  lemma {:induction false} StepExplained(s: PassState, limit: nat, actions: seq<Action>, a: Action)
    requires Enabled(s, a) && PhaseExplained(s.phases[a.consumer], actions, a.consumer)
    ensures PhaseExplained(Next(s, limit, a).phases[a.consumer], actions + [a], a.consumer)
  {
    hide LastOf, Held;
    LastAdded(actions, a, a.consumer);
  }

  lemma {:induction false} StepCounts(s: PassState, limit: nat, actions: seq<Action>, a: Action)
    requires InStep(s, actions, limit) && Enabled(s, a)
    ensures var t, after := Next(s, limit, a), actions + [a];
            && t.claimed == |Claims(after)| && t.embedded == Successes(after)
            && t.consecutiveFailures == FailuresInARow(after) && t.ended == EndedBy(after, limit)
  {
    assert (actions + [a])[..|actions|] == actions;
    ClaimsConcat(actions, [a]);
    assert Claims([a][1..]) == [];
    hide ListsFailures, PhaseExplained;
  }

  /** A step adds the attempt it counts, at the end, and no other step changes the list. */
  lemma {:induction false} StepFails(s: PassState, limit: nat, actions: seq<Action>, a: Action)
    requires Enabled(s, a) && PhaseExplained(s.phases[a.consumer], actions, a.consumer)
    ensures var t := Next(s, limit, a).failed;
            if a.event.FailureCounted? then
              && t != [] && t[..|t| - 1] == s.failed && IsFailedAttempt(actions, a.consumer, t[|t| - 1])
              && t[|t| - 1].outcome == (match a.event.outcome case Some(o) => o case None => Retry)
            else t == s.failed
  {
    hide Held, LastOf;
  }

  lemma {:induction false} StepLists(s: PassState, limit: nat, actions: seq<Action>, a: Action)
    requires Enabled(s, a) && ListsFailures(s.failed, actions) && PhaseExplained(s.phases[a.consumer], actions, a.consumer)
    ensures ListsFailures(Next(s, limit, a).failed, actions + [a])
  {
    StepFails(s, limit, actions, a);
    hide Enabled, Next, PhaseExplained, IsFailedAttempt;
    assert (actions + [a])[..|actions|] == actions;
  }

  lemma {:induction false} StepInStep(s: PassState, limit: nat, actions: seq<Action>, a: Action)
    requires InStep(s, actions, limit) && Enabled(s, a)
    ensures InStep(Next(s, limit, a), actions + [a], limit)
  {
    var t := Next(s, limit, a);
    assert t.phases == s.phases[a.consumer := t.phases[a.consumer]];
    StepCounts(s, limit, actions, a);
    hide Next, PhaseExplained, ListsFailures, EndedBy, FailuresInARow, Successes, Claims, Enabled;
    assert PhaseExplained(s.phases[a.consumer], actions, a.consumer);
    StepLists(s, limit, actions, a);
    StepExplained(s, limit, actions, a);
    forall i | 0 <= i < |t.phases| ensures PhaseExplained(t.phases[i], actions + [a], i) {
      if i != a.consumer {
        OthersExplained(s.phases[i], actions, a, i);
      }
    }
  }

  /**
   The variables the consumers share are, at every point of every interleaving, what the events so far
   say: how many records were claimed and embedded, the failures since the last success, what ended the
   pass, which attempts failed and why, and where each consumer is.
   */
  lemma {:induction false} TraceExact(concurrency: nat, limit: nat, actions: seq<Action>)
    requires Play(Opening(concurrency), limit, actions).Some?
    ensures InStep(Play(Opening(concurrency), limit, actions).value, actions, limit)
    decreases |actions|
  {
    hide Next, Enabled, InStep;
    if actions == [] {
      OpeningInStep(concurrency, limit);
    } else {
      var init, last := actions[..|actions| - 1], actions[|actions| - 1];
      assert actions == init + [last];
      PlayInit(Opening(concurrency), limit, init, [last]);
      TraceExact(concurrency, limit, init);
      PlayConcat(Opening(concurrency), limit, init, [last]);
      var s := Play(Opening(concurrency), limit, init).value;
      assert [last][1..] == [];
      StepInStep(s, limit, init, last);
    }
  }

  lemma OpeningInStep(concurrency: nat, limit: nat)
    ensures InStep(Opening(concurrency), [], limit)
  {}

  lemma {:induction false} PlayInit(s: PassState, limit: nat, a: seq<Action>, b: seq<Action>)
    requires Play(s, limit, a + b).Some?
    ensures Play(s, limit, a).Some?
    decreases a
  {
    hide Next, Enabled;
    if a != [] {
      assert (a + b)[1..] == a[1..] + b && (a + b)[0] == a[0];
      PlayInit(Next(s, limit, a[0]), limit, a[1..], b);
    }
  }

  /** Once the pass has ended only the claims already asked for can still be answered. */
  lemma {:induction false} EndedClaimsNoMore(s: PassState, limit: nat, actions: seq<Action>)
    requires s.ended.Some? && Play(s, limit, actions).Some?
    ensures var t := Play(s, limit, actions).value;
            && t.ended == s.ended
            && t.claimed + Count(t.phases, IsClaiming) <= s.claimed + Count(s.phases, IsClaiming)
    decreases actions
  {
    if actions != [] {
      var t, i := Next(s, limit, actions[0]), actions[0].consumer;
      CountChanged(s.phases, i, t.phases[i], IsClaiming);
      assert t.phases == s.phases[i := t.phases[i]];
      hide Count;
      EndedClaimsNoMore(t, limit, actions[1..]);
    }
  }

  predicate IsClaiming(p: Phase) {
    p.Claiming?
  }

  // --- The bound is reached -------------------------------------------------------------------

  lemma {:induction false} PlayConcat(s: PassState, limit: nat, a: seq<Action>, b: seq<Action>)
    requires Play(s, limit, a).Some?
    ensures Play(s, limit, a + b) == Play(Play(s, limit, a).value, limit, b)
    decreases a
  {
    hide Next, Enabled;
    if a == [] {
      assert a + b == b;
    } else {
      assert (a + b)[1..] == a[1..] + b;
      PlayConcat(Next(s, limit, a[0]), limit, a[1..], b);
    }
  }

  /** What a consumer is at, by its number. */
  type Stage = nat -> Phase

  /** The phases: the first `n` consumers at `done`, the others at `rest`. */
  function Split(n: nat, done: Stage, concurrency: nat, rest: Stage): (phases: seq<Phase>)
    requires n <= concurrency
    ensures |phases| == concurrency
  {
    seq(concurrency, i requires 0 <= i < concurrency => if i < n then done(i) else rest(i))
  }

  const READY: Stage := (i: nat) => Ready
  const CLAIMING: Stage := (i: nat) => Claiming

  /** Each consumer has failed on a record of its own, numbered from `first`. */
  function FailedFrom(first: nat): Stage {
    (i: nat) => Counting(first + i, EngineRefused)
  }

  lemma SplitMoves(n: nat, done: Stage, concurrency: nat, rest: Stage)
    requires n < concurrency
    ensures Split(n, done, concurrency, rest)[n := done(n)] == Split(n + 1, done, concurrency, rest)
    ensures Split(n, done, concurrency, rest)[n] == rest(n)
    ensures Split(concurrency, done, concurrency, rest) == Split(0, rest, concurrency, done)
  {}

  const REFUSED := Some(EngineRefused)

  /** One consumer claims a record, fails on it and is back at the head of its loop. */
  function FailOnce(record: Record): seq<Action> {
    [Action(0, Proceed(false)), Action(0, ClaimAnswered(Claimed(record))), Action(0, EngineAnswered(REFUSED)),
     Action(0, FailureCounted(None))]
  }

  /** The records claimed, in order. */
  function Claims(actions: seq<Action>): seq<Record> {
    if actions == [] then []
    else
      (match actions[0].event
       case ClaimAnswered(Claimed(record)) => [record]
       case _ => []) + Claims(actions[1..])
  }

  lemma {:induction false} ClaimsConcat(a: seq<Action>, b: seq<Action>)
    ensures Claims(a + b) == Claims(a) + Claims(b)
  {
    if a == [] {
      assert a + b == b;
    } else {
      assert (a + b)[1..] == a[1..] + b;
      ClaimsConcat(a[1..], b);
    }
  }

  /** So many records, each its own. */
  function Numbered(first: nat, n: nat): seq<Record> {
    seq(n, i => first + i)
  }

  /** Nothing ended, this many failures in a row, the consumers as given. */
  ghost predicate At(s: PassState, failures: nat, phases: seq<Phase>) {
    s.ended == None && s.consecutiveFailures == failures && s.phases == phases
  }

  lemma FailsOnce(s: PassState, limit: nat, concurrency: nat, failures: nat)
    requires concurrency > 0 && failures < limit && At(s, failures, Split(0, READY, concurrency, READY))
    ensures Play(s, limit, FailOnce(failures)).Some?
    ensures At(Play(s, limit, FailOnce(failures)).value, failures + 1, Split(0, READY, concurrency, READY))
  {
    var a := FailOnce(failures);
    var s1 := Next(s, limit, a[0]);
    var s2 := Next(s1, limit, a[1]);
    var s3 := Next(s2, limit, a[2]);
    var s4 := Next(s3, limit, a[3]);
    assert s4.phases == s.phases;
    assert Play(s4, limit, a[4..]) == Some(s4);
    assert Play(s3, limit, a[3..]) == Some(s4);
    assert Play(s2, limit, a[2..]) == Some(s4);
    assert Play(s1, limit, a[1..]) == Some(s4);
  }

  lemma OneClaim(record: Record)
    ensures Claims(FailOnce(record)) == [record]
  {
    var a := FailOnce(record);
    assert Claims(a[3..]) == [] && a[2..][1..] == a[3..] && a[1..][1..] == a[2..];
    assert Claims(a[2..]) == [];
  }

  /** One consumer, failing again and again on new records, brings the count up to the limit. */
  lemma {:induction false} FailsUpTo(concurrency: nat, limit: nat, failures: nat) returns (actions: seq<Action>)
    requires concurrency > 0 && failures <= limit
    ensures Play(Opening(concurrency), limit, actions).Some?
    ensures At(Play(Opening(concurrency), limit, actions).value, failures, Split(0, READY, concurrency, READY))
    ensures Claims(actions) == Numbered(0, failures)
  {
    if failures == 0 {
      actions := [];
      assert Opening(concurrency).phases == Split(0, READY, concurrency, READY);
    } else {
      hide Play, Next, Enabled;
      var before := FailsUpTo(concurrency, limit, failures - 1);
      FailsOnce(Play(Opening(concurrency), limit, before).value, limit, concurrency, failures - 1);
      PlayConcat(Opening(concurrency), limit, before, FailOnce(failures - 1));
      actions := before + FailOnce(failures - 1);
      ClaimsConcat(before, FailOnce(failures - 1));
      OneClaim(failures - 1);
    }
  }

  /** The first `n` consumers pass the failure check. */
  lemma {:induction false} AllProceed(s: PassState, limit: nat, concurrency: nat, failures: nat, n: nat) returns (actions: seq<Action>)
    requires failures < limit && n <= concurrency && At(s, failures, Split(0, CLAIMING, concurrency, READY))
    ensures Play(s, limit, actions).Some?
    ensures At(Play(s, limit, actions).value, failures, Split(n, CLAIMING, concurrency, READY))
    ensures Claims(actions) == []
    decreases n
  {
    if n == 0 {
      actions := [];
    } else {
      var before := AllProceed(s, limit, concurrency, failures, n - 1);
      var t, last := Play(s, limit, before).value, [Action(n - 1, Proceed(false))];
      SplitMoves(n - 1, CLAIMING, concurrency, READY);
      assert Play(t, limit, last) == Some(Next(t, limit, last[0]));
      PlayConcat(s, limit, before, last);
      ClaimsConcat(before, last);
      actions := before + last;
    }
  }

  /** The first `n` consumers claim a record each and fail on it. */
  lemma {:induction false} AllFail(s: PassState, limit: nat, concurrency: nat, failures: nat, n: nat) returns (actions: seq<Action>)
    requires n <= concurrency && At(s, failures, Split(0, FailedFrom(failures), concurrency, CLAIMING))
    ensures Play(s, limit, actions).Some?
    ensures At(Play(s, limit, actions).value, failures + n, Split(n, FailedFrom(failures), concurrency, CLAIMING))
    ensures Claims(actions) == Numbered(failures, n)
    decreases n
  {
    if n == 0 {
      actions := [];
    } else {
      var before := AllFail(s, limit, concurrency, failures, n - 1);
      var t := Play(s, limit, before).value;
      var last := ClaimAndFail(t, limit, concurrency, failures, n - 1);
      hide Play;
      PlayConcat(s, limit, before, last);
      ClaimsConcat(before, last);
      actions := before + last;
    }
  }

  lemma ClaimAndFail(t: PassState, limit: nat, concurrency: nat, failures: nat, i: nat) returns (last: seq<Action>)
    requires i < concurrency && At(t, failures + i, Split(i, FailedFrom(failures), concurrency, CLAIMING))
    ensures Play(t, limit, last).Some?
    ensures At(Play(t, limit, last).value, failures + i + 1, Split(i + 1, FailedFrom(failures), concurrency, CLAIMING))
    ensures Claims(last) == [failures + i]
  {
    last := [Action(i, ClaimAnswered(Claimed(failures + i))), Action(i, EngineAnswered(REFUSED))];
    SplitMoves(i, FailedFrom(failures), concurrency, CLAIMING);
    var t1 := Next(t, limit, last[0]);
    var t2 := Next(t1, limit, last[1]);
    assert t2.phases == t.phases[i := FailedFrom(failures)(i)];
    assert Play(t2, limit, last[2..]) == Some(t2);
    assert Play(t1, limit, last[1..]) == Some(t2);
    assert Claims(last[1..]) == [];
  }

  /** The bound is reached, for every limit and every number of consumers, with no record claimed twice. */
  lemma {:induction false} BoundReached(concurrency: nat, limit: nat) returns (actions: seq<Action>)
    requires concurrency > 0 && limit > 0
    ensures Play(Opening(concurrency), limit, actions).Some?
    ensures Play(Opening(concurrency), limit, actions).value.consecutiveFailures == limit + concurrency - 1
    ensures Claims(actions) == Numbered(0, limit + concurrency - 1)
  {
    hide Play, Next, Enabled, Claims;
    var s := Opening(concurrency);
    var up := FailsUpTo(concurrency, limit, limit - 1);
    var ready := Play(s, limit, up).value;
    assert Split(0, READY, concurrency, READY) == Split(0, CLAIMING, concurrency, READY);
    var proceed := AllProceed(ready, limit, concurrency, limit - 1, concurrency);
    var claiming := Play(ready, limit, proceed).value;
    assert Split(concurrency, CLAIMING, concurrency, READY) == Split(0, FailedFrom(limit - 1), concurrency, CLAIMING);
    var fail := AllFail(claiming, limit, concurrency, limit - 1, concurrency);
    PlayConcat(s, limit, up, proceed);
    PlayConcat(s, limit, up + proceed, fail);
    ClaimsConcat(up, proceed);
    ClaimsConcat(up + proceed, fail);
    actions := up + proceed + fail;
  }

  // --- Between passes -------------------------------------------------------------------------

  /** How a pass ended, as the pump sees it. */
  datatype PassEnd = Rested | EngineFailing | Threw

  /** `startEmbeddingPump`: the wait after each pass. */
  class Pump {
    const idle: nat
    const first: nat
    const most: nat
    var backoff: nat

    constructor (idleMs: nat, backoffMs: nat, maxBackoffMs: nat)
      ensures idle == idleMs && first == backoffMs && most == maxBackoffMs
      ensures backoff == backoffMs == BackoffAfter(first, most, 0)
    {
      idle, first, most, backoff := idleMs, backoffMs, maxBackoffMs, backoffMs;
    }

    /** `failed`: how many passes in a row have failed or thrown so far. */
    method AfterPass(end: PassEnd, ghost failed: nat) returns (wait: nat)
      requires backoff == BackoffAfter(first, most, failed)
      modifies this
      ensures wait == if end.Rested? then idle else BackoffAfter(first, most, failed)
      ensures backoff == BackoffAfter(first, most, if end.Rested? then 0 else failed + 1)
    {
      if end.Rested? {
        backoff := first;
        wait := idle;
      } else {
        wait := backoff;
        backoff := if 2 * backoff < most then 2 * backoff else most;
        BackoffDoubles(first, most, failed);
      }
    }
  }

  function Doubled(first: nat, failures: nat): nat {
    if failures == 0 then first else 2 * Doubled(first, failures - 1)
  }

  /** The wait after so many failing passes in a row: the first one doubled that often, up to the most. */
  function BackoffAfter(first: nat, most: nat, failures: nat): nat {
    if failures == 0 || Doubled(first, failures) < most then Doubled(first, failures) else most
  }

  function Power(n: nat): nat {
    if n == 0 then 1 else 2 * Power(n - 1)
  }

  /** The first wait as it is given; after n failing passes 2^n times that, or the most if that is less. */
  lemma {:induction false} BackoffIs(first: nat, most: nat, failures: nat)
    ensures var all := first * Power(failures);
            BackoffAfter(first, most, failures) == if failures == 0 then first else if all <= most then all else most
  {
    DoubledIs(first, failures);
  }

  lemma {:induction false} DoubledIs(first: nat, failures: nat)
    ensures Doubled(first, failures) == first * Power(failures)
  {
    if failures > 0 {
      DoubledIs(first, failures - 1);
      assert first * (2 * Power(failures - 1)) == 2 * (first * Power(failures - 1));
    }
  }

  /** Doubling what was already cut off at the most is cutting off what was doubled. */
  lemma {:induction false} BackoffDoubles(first: nat, most: nat, failures: nat)
    ensures BackoffAfter(first, most, failures + 1) ==
            var twice := 2 * BackoffAfter(first, most, failures); if twice < most then twice else most
  {
    assert Doubled(first, failures + 1) == 2 * Doubled(first, failures);
  }
}
