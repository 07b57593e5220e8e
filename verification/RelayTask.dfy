/**
 Asynchronous task submission and settlement (controller/relay.go).

 `RelayTask` runs the retry loop, makes the accepted task and its settlement intent durable,
 settles, releases the buffered response, and finally refunds the reservation or marks the task.
 Everything behind the service, relay and model packages is an environment that may answer in any
 way; what the run does to the outside is its log of effects.
*/
module RelayTask {
  import opened Options

  const RESPONSE_WRITE_FAILED := "write_task_response_failed"
  const SETTLEMENT_PENDING := "billing_settlement_pending"

  /** `upstreamStatus` is 0 when the error did not come with an upstream status. */
  datatype TaskError = TaskError(code: string, status: int, upstreamStatus: int, local: bool)

  function LocalError(code: string, status: int): TaskError {
    TaskError(code, status, 0, true)
  }

  // ----- The environment

  /**
   One submit attempt: whether it reserved quota and stored the placeholder task row, whether the
   upstream answered or the request was written without an answer, and what it returned.
   `result` is Some(true) when it carries a task.
  */
  datatype Attempt = Attempt(
    reserves: bool, persists: bool, answered: bool, unknown: bool,
    result: Option<bool>, error: Option<TaskError>)

  /** One turn of the loop; `budget` is the number of retries left, negative once they are used up. */
  datatype Turn = Turn(
    budget: int, selectionFails: bool, billingError: Option<int>, bodyError: Option<bool>,
    attempt: Attempt, affinitySkipsRetry: bool, specificChannel: bool)

  datatype Prepare = NoPreparer | PrepareFails | Prepared(intent: bool)

  datatype Env = Env(
    locked: bool, turns: seq<Turn>,
    prepare: Prepare, persistFails: bool, settleFails: bool, writeFails: bool)

  /**
   A submit returns no result beside an error, and sets the answered flag before it builds a task
   (relay/relay_task.go:338-440).
  */
  predicate Honest(a: Attempt) {
    (a.error.Some? ==> a.result.None?) && (a.result == Some(true) ==> a.answered)
  }

  datatype Effect =
    | Submit(attempt: Attempt)
    | ReportChannelError
    | PersistTask(intent: bool)
    | Settle(ok: bool)
    | ApplyEffect
    | LogConsumption
    | WriteResponse(ok: bool)
    | RespondError(code: string)
    | Refund
    | MarkNeedsReview
    | MarkAmbiguous
    | MarkFailed

  // ----- Retry decisions

  /** Timeouts that are never retried (setting/operation_setting/status_code_ranges.go:31-34). */
  predicate AlwaysSkipStatus(status: int) {
    status == 504 || status == 524
  }

  predicate ShouldRetryStatus(status: int) {
    if status == 429 then true
    else if status == 307 then true
    else if 500 <= status < 600 then !AlwaysSkipStatus(status)
    else if status == 400 then false
    else if status == 408 then false
    else if 200 <= status < 300 then false
    else true
  }

  predicate ShouldRetry(turn: Turn, err: TaskError) {
    if turn.affinitySkipsRetry then false
    else if turn.budget <= 0 then false
    else if turn.specificChannel then false
    else if err.local then false
    else if err.upstreamStatus != 0 && !ShouldRetryStatus(err.upstreamStatus) then false
    else ShouldRetryStatus(err.status)
  }

  // ----- What an environment makes of the loop

  predicate EndsLoop(turn: Turn) {
    || turn.selectionFails || turn.billingError.Some? || turn.bodyError.Some?
    || turn.attempt.error.None? || turn.attempt.answered || turn.attempt.unknown
    || !ShouldRetry(turn, turn.attempt.error.value)
  }

  predicate Submits(turn: Turn) {
    !turn.selectionFails && turn.billingError.None? && turn.bodyError.None?
  }

  /** The error a turn leaves behind. */
  function TurnError(env: Env, turn: Turn): Option<TaskError> {
    if turn.selectionFails then
      Some(LocalError(if env.locked then "setup_locked_channel_failed" else "get_channel_failed", 500))
    else if turn.billingError.Some? then Some(LocalError("prepare_tiered_billing_failed", turn.billingError.value))
    else if turn.bodyError.Some? then
      Some(LocalError("read_request_body_failed", if turn.bodyError.value then 413 else 400))
    else turn.attempt.error
  }

  /** The attempt a turn makes, if it makes one. */
  function Made(turn: Turn): seq<Attempt> {
    if Submits(turn) then [turn.attempt] else []
  }

  /** The attempts made from turn `i` on, in order. */
  function Attempts(env: Env, i: nat): seq<Attempt>
    decreases |env.turns| - i
  {
    if i >= |env.turns| || env.turns[i].budget < 0 then []
    else Made(env.turns[i]) + if EndsLoop(env.turns[i]) then [] else Attempts(env, i + 1)
  }

  /** The error the loop ends with from turn `i` on, when `last` is that of the turn before. */
  function LoopError(env: Env, i: nat, last: Option<TaskError>): Option<TaskError>
    decreases |env.turns| - i
  {
    if i >= |env.turns| || env.turns[i].budget < 0 then last
    else if EndsLoop(env.turns[i]) then TurnError(env, env.turns[i])
    else LoopError(env, i + 1, TurnError(env, env.turns[i]))
  }

  /** The loop ends with an attempt that fails with the code of a lost response. */
  predicate EndsWithLostCode(env: Env) {
    var error := LoopError(env, 0, None);
    error.Some? && error.value.code == RESPONSE_WRITE_FAILED
  }

  /** The statuses after which no attempt is repeated. */
  predicate IsRefused(status: int) {
    200 <= status < 300 || status == 400 || status == 408 || status == 504 || status == 524
  }

  lemma RetriedStatuses(status: int)
    ensures ShouldRetryStatus(status) <==> !IsRefused(status)
  {
  }

  /** A turn after which another one is made: its submit failed before it reached the upstream, with an error that is
      neither local nor refused, some budget is left, and the channel is neither pinned nor kept by affinity. */
  predicate GoesOn(turn: Turn) {
    && !turn.selectionFails && turn.billingError.None? && turn.bodyError.None?
    && !turn.attempt.answered && !turn.attempt.unknown && turn.attempt.error.Some?
    && turn.budget > 0 && !turn.specificChannel && !turn.affinitySkipsRetry
    && var err := turn.attempt.error.value;
       !err.local && !IsRefused(err.status) && (err.upstreamStatus == 0 || !IsRefused(err.upstreamStatus))
  }

  /** From each turn that is made, the attempts are its own, if it gets to submit, and those from the next turn on if it
      goes on, and no others; the error of the loop is that of the last turn made. */
  lemma RetryRule(env: Env, i: nat, last: Option<TaskError>)
    requires i < |env.turns| && env.turns[i].budget >= 0
    ensures var turn := env.turns[i];
      && Attempts(env, i) ==
           (if turn.selectionFails || turn.billingError.Some? || turn.bodyError.Some? then [] else [turn.attempt])
           + (if GoesOn(turn) then Attempts(env, i + 1) else [])
      && LoopError(env, i, last) ==
           if GoesOn(turn) then LoopError(env, i + 1, turn.attempt.error) else TurnError(env, turn)
  {
    var turn := env.turns[i];
    if turn.attempt.error.Some? {
      RetriedStatuses(turn.attempt.error.value.status);
      RetriedStatuses(turn.attempt.error.value.upstreamStatus);
    }
    assert EndsLoop(turn) <==> !GoesOn(turn);
  }

  /** The errors of the turns that end before their submit. */
  lemma EarlyErrors(env: Env, turn: Turn)
    requires !Submits(turn)
    ensures var error := TurnError(env, turn);
      error.Some? && error.value.local && error.value.upstreamStatus == 0
      && (error.value.code == "setup_locked_channel_failed" <==> turn.selectionFails && env.locked)
      && (error.value.code == "get_channel_failed" <==> turn.selectionFails && !env.locked)
      && (error.value.code == "prepare_tiered_billing_failed" <==> !turn.selectionFails && turn.billingError.Some?)
      && (error.value.code == "read_request_body_failed" <==> !turn.selectionFails && turn.billingError.None?)
      && (turn.selectionFails ==> error.value.status == 500)
      && (!turn.selectionFails && turn.billingError.Some? ==> error.value.status == turn.billingError.value)
      && (!turn.selectionFails && turn.billingError.None? ==>
            error.value.status == if turn.bodyError == Some(true) then 413 else 400)
  {
  }

  // ----- Reading a log

  /** The attempts submitted, in order. */
  function SubmitsOf(log: seq<Effect>): seq<Attempt> {
    if log == [] then []
    else
      var last := log[|log| - 1];
      SubmitsOf(log[..|log| - 1]) + if last.Submit? then [last.attempt] else []
  }

  lemma SubmitsOfAppend(log: seq<Effect>, e: Effect)
    ensures SubmitsOf(log + [e]) == SubmitsOf(log) + if e.Submit? then [e.attempt] else []
  {
    assert (log + [e])[..|log|] == log;
  }

  lemma {:induction false} SubmitsOfNone(log: seq<Effect>, rest: seq<Effect>)
    requires forall e :: e in rest ==> !e.Submit?
    ensures SubmitsOf(log + rest) == SubmitsOf(log)
  {
    if rest == [] {
      assert log + rest == log;
    } else {
      var most, last := rest[..|rest| - 1], rest[|rest| - 1];
      assert log + rest == log + most + [last] && last in rest;
      SubmitsOfAppend(log + most, last);
      SubmitsOfNone(log, most);
    }
  }

  lemma {:induction false} InSubmits(log: seq<Effect>, a: Attempt)
    ensures a in SubmitsOf(log) <==> Submit(a) in log
  {
    if log != [] {
      var most, last := log[..|log| - 1], log[|log| - 1];
      assert log == most + [last];
      InSubmits(most, a);
    }
  }

  predicate Contacted(log: seq<Effect>) {
    exists e :: e in log && e.Submit? && (e.attempt.answered || e.attempt.unknown)
  }

  predicate Reserved(log: seq<Effect>) {
    exists e :: e in log && e.Submit? && e.attempt.reserves
  }

  predicate Persisted(log: seq<Effect>) {
    exists e :: e in log && e.Submit? && e.attempt.persists
  }

  predicate Accepted(log: seq<Effect>) {
    exists e :: e in log && e.Submit? && e.attempt.result == Some(true)
  }

  predicate IsMark(e: Effect) {
    e == MarkNeedsReview || e == MarkAmbiguous || e == MarkFailed
  }

  /** An attempt another one may follow: it never reached the upstream and failed retryably. */
  predicate Retryable(a: Attempt) {
    && !a.answered && !a.unknown
    && a.error.Some? && !a.error.value.local && ShouldRetryStatus(a.error.value.status)
    && (a.error.value.upstreamStatus == 0 || ShouldRetryStatus(a.error.value.upstreamStatus))
  }

  /** Every submit but the last one was retryable. */
  ghost predicate RetriesJustified(log: seq<Effect>) {
    forall i, j :: 0 <= i < j < |log| && log[i].Submit? && log[j].Submit? ==> Retryable(log[i].attempt)
  }

  /**
   Nothing is released before it is safe: a response only after the booking, a booking only after
   the settlement, a settlement only after the task row is durable, and that only for a task the
   upstream accepted.
  */
  predicate EffectsOrdered(log: seq<Effect>) {
    forall j :: 0 <= j < |log| ==> OrderedAt(log, j)
  }

  predicate OrderedAt(log: seq<Effect>, j: nat)
    requires j < |log|
  {
    match log[j]
    case WriteResponse(_) => ApplyEffect in log[..j] || LogConsumption in log[..j]
    case ApplyEffect => Settle(true) in log[..j]
    case LogConsumption => Settle(true) in log[..j]
    case Settle(_) => PersistTask(true) in log[..j] || PersistTask(false) in log[..j]
    case PersistTask(_) => Accepted(log[..j])
    case _ => true
  }

  /** A run ends in success exactly when it wrote the success response. */
  predicate SuccessDecided(error: Option<TaskError>, log: seq<Effect>) {
    error.None? <==> WriteResponse(true) in log
  }

  /**
   The reservation goes back, once, exactly when the run failed without ever reaching the upstream
   (and the failure is not the one reserved for a lost response); so never after a settlement or a
   persisted task.
  */
  predicate RefundDecided(error: Option<TaskError>, log: seq<Effect>) {
    && (Refund in log <==>
          error.Some? && Reserved(log) && !Contacted(log) && error.value.code != RESPONSE_WRITE_FAILED)
    && (Refund in log ==> Settle(true) !in log && PersistTask(true) !in log && PersistTask(false) !in log)
    && RefundsOnce(log)
  }

  predicate RefundsOnce(log: seq<Effect>) {
    forall i, j :: 0 <= i < j < |log| && log[j] == Refund ==> log[i] != Refund
  }

  /**
   The persisted task row of a failed run is marked at most once, by what is known about the
   upstream task; with a durable but unsettled intent, or a lost response, it stays pollable.
  */
  predicate MarksDecided(error: Option<TaskError>, log: seq<Effect>) {
    && (MarkFailed in log <==> error.Some? && Persisted(log) && !Contacted(log))
    && (MarkAmbiguous in log <==> error.Some? && Persisted(log) && Contacted(log) && !Accepted(log))
    && (MarkNeedsReview in log <==>
          error.Some? && Persisted(log) && Accepted(log) && WriteResponse(false) !in log
          && !(PersistTask(true) in log && Settle(true) !in log))
    && MarksOnce(log)
  }

  predicate MarksOnce(log: seq<Effect>) {
    forall i, j :: 0 <= i < j < |log| && IsMark(log[j]) ==> !IsMark(log[i])
  }

  /** After a settlement the durable effect is applied, or without one the consumption is logged. */
  predicate BookingDecided(log: seq<Effect>) {
    && (ApplyEffect in log <==> Settle(true) in log && PersistTask(true) in log)
    && (LogConsumption in log <==> Settle(true) in log && PersistTask(false) in log)
  }

  /** An attempt that failed, not locally, without reaching the upstream. */
  predicate Reportable(a: Attempt) {
    a.error.Some? && !a.error.value.local && !a.answered && !a.unknown
  }

  /** The channel's error is reported right after each such attempt, and at no other time. */
  ghost predicate ReportsDecided(log: seq<Effect>) {
    && (forall i :: 0 <= i < |log| && log[i].Submit? && Reportable(log[i].attempt) ==>
          i + 1 < |log| && log[i + 1] == ReportChannelError)
    && (forall i :: 0 <= i < |log| && log[i] == ReportChannelError ==>
          i > 0 && log[i - 1].Submit? && Reportable(log[i - 1].attempt))
  }

  function CodeOf(error: Option<TaskError>): Option<string> {
    if error.Some? then Some(error.value.code) else None
  }

  /** What goes wrong first after a loop that ended without an error. */
  function FinalCode(env: Env, reserved: bool, accepted: bool): Option<string> {
    if !accepted then Some("persist_task_failed")
    else if reserved && !env.prepare.Prepared? then Some("persist_billing_intent_failed")
    else if env.persistFails then Some("persist_task_result_failed")
    else if env.settleFails then Some("billing_settlement_pending")
    else if env.writeFails then Some("write_task_response_failed")
    else None
  }

  /** The error of a run is that of the loop, or the first failure after it; it is the one answered. The task row is
      stored with a settlement intent exactly if quota was reserved and prepared into one. */
  ghost predicate ErrorDecided(env: Env, error: Option<TaskError>, log: seq<Effect>) {
    && (var loopError := LoopError(env, 0, None);
        if loopError.Some? then error == loopError
        else CodeOf(error) == FinalCode(env, Reserved(log), Accepted(log)))
    && (forall code :: RespondError(code) in log <==> CodeOf(error) == Some(code))
    && (PersistTask(true) in log ==> Reserved(log) && env.prepare == Prepared(true))
    && (PersistTask(false) in log ==> Reserved(log) ==> env.prepare == Prepared(false))
  }

  predicate SubmitEffect(e: Effect) {
    e.Submit? || e == ReportChannelError
  }

  lemma SplitLog(a: seq<Effect>, b: seq<Effect>)
    ensures Contacted(a + b) <==> Contacted(a) || Contacted(b)
    ensures Reserved(a + b) <==> Reserved(a) || Reserved(b)
    ensures Persisted(a + b) <==> Persisted(a) || Persisted(b)
    ensures Accepted(a + b) <==> Accepted(a) || Accepted(b)
  {
    if e :| e in a + b && e.Submit? && (e.attempt.answered || e.attempt.unknown) { assert e in a || e in b; }
    if e :| e in a && e.Submit? && (e.attempt.answered || e.attempt.unknown) { assert e in a + b; }
    if e :| e in b && e.Submit? && (e.attempt.answered || e.attempt.unknown) { assert e in a + b; }
    if e :| e in a + b && e.Submit? && e.attempt.reserves { assert e in a || e in b; }
    if e :| e in a && e.Submit? && e.attempt.reserves { assert e in a + b; }
    if e :| e in b && e.Submit? && e.attempt.reserves { assert e in a + b; }
    if e :| e in a + b && e.Submit? && e.attempt.persists { assert e in a || e in b; }
    if e :| e in a && e.Submit? && e.attempt.persists { assert e in a + b; }
    if e :| e in b && e.Submit? && e.attempt.persists { assert e in a + b; }
    if e :| e in a + b && e.Submit? && e.attempt.result == Some(true) { assert e in a || e in b; }
    if e :| e in a && e.Submit? && e.attempt.result == Some(true) { assert e in a + b; }
    if e :| e in b && e.Submit? && e.attempt.result == Some(true) { assert e in a + b; }
  }

  // ----- The run

  /** What relayInfo and the local variables hold while a task is relayed. */
  datatype State = State(
    billing: bool, persisted: bool, answered: bool, unknown: bool,
    result: Option<bool>, error: Option<TaskError>)

  predicate Agrees(st: State, log: seq<Effect>) {
    && st.billing == Reserved(log) && st.persisted == Persisted(log)
    && (st.answered || st.unknown) == Contacted(log)
    && (st.result == Some(true)) == Accepted(log)
  }

  /** What every pass through the loop leaves behind. */
  ghost predicate LoopOk(st: State, log: seq<Effect>) {
    && (forall e :: e in log ==> SubmitEffect(e))
    && Agrees(st, log) && RetriesJustified(log) && ReportsDecided(log)
    && (st.error.Some? ==> !Accepted(log))
    && (st.result == Some(true) ==> st.answered)
  }

  /** The submit loop. */
  method SubmitLoop(env: Env) returns (st: State, log: seq<Effect>)
    requires forall t :: t in env.turns ==> Honest(t.attempt)
    ensures LoopOk(st, log)
    ensures st.error == LoopError(env, 0, None)
    ensures SubmitsOf(log) == Attempts(env, 0)
  {
    st, log := State(false, false, false, false, None, None), [];
    NothingYet(env, st);
    var i := 0;
    while i < |env.turns| && env.turns[i].budget >= 0
      invariant 0 <= i <= |env.turns|
      invariant LoopOk(st, log) && AllRetryable(log)
      invariant Underway(env, i, st.error, SubmitsOf(log))
    {
      var stop;
      ghost var last, made := st.error, SubmitsOf(log);
      TurnKeeps(env, env.turns[i], st, log);
      st, log, stop := TakeTurn(env, env.turns[i], st, log);
      TurnTaken(env, i, last, made);
      if stop {
        return;
      }
      i := i + 1;
    }
    NoMoreTurns(env, i, st.error, SubmitsOf(log));
  }

  lemma NothingYet(env: Env, st: State)
    requires st == State(false, false, false, false, None, None)
    ensures LoopOk(st, []) && AllRetryable([]) && Underway(env, 0, None, SubmitsOf([]))
  {
  }

  lemma NoMoreTurns(env: Env, i: nat, last: Option<TaskError>, made: seq<Attempt>)
    requires Underway(env, i, last, made) && (i >= |env.turns| || env.turns[i].budget < 0)
    ensures last == LoopError(env, 0, None) && made == Attempts(env, 0)
  {
  }

  /** Before turn `i` the attempts `made` and the error `last` are those of the environment so far. */
  ghost predicate Underway(env: Env, i: nat, last: Option<TaskError>, made: seq<Attempt>) {
    && LoopError(env, 0, None) == LoopError(env, i, last)
    && Attempts(env, 0) == made + Attempts(env, i)
  }

  lemma TurnTaken(env: Env, i: nat, last: Option<TaskError>, made: seq<Attempt>)
    requires i < |env.turns| && env.turns[i].budget >= 0 && Underway(env, i, last, made)
    ensures var error, now := TurnError(env, env.turns[i]), made + Made(env.turns[i]);
      if EndsLoop(env.turns[i]) then error == LoopError(env, 0, None) && now == Attempts(env, 0)
      else Underway(env, i + 1, error, now)
  {
  }

  /** All submits so far failed retryably. */
  ghost predicate AllRetryable(log: seq<Effect>) {
    && !Contacted(log) && !Accepted(log)
    && forall e :: e in log ==> SubmitEffect(e) && (e.Submit? ==> Retryable(e.attempt))
  }

  /** What relayInfo and the variables hold after one more attempt. */
  function NextState(st: State, a: Attempt): State {
    State(st.billing || a.reserves, st.persisted || a.persists, st.answered || a.answered,
          st.unknown || a.unknown, a.result, a.error)
  }

  /** The effects of one attempt. */
  function Tried(a: Attempt): seq<Effect> {
    if a.error.None? || a.answered || a.unknown || a.error.value.local then [Submit(a)]
    else [Submit(a), ReportChannelError]
  }

  function AfterTurn(env: Env, turn: Turn, st: State): State {
    if Submits(turn) then NextState(st, turn.attempt) else st.(error := TurnError(env, turn))
  }

  function TurnEffects(turn: Turn): seq<Effect> {
    if Submits(turn) then Tried(turn.attempt) else []
  }

  /** One pass through the loop; `stop` is its break. */
  method TakeTurn(env: Env, turn: Turn, st0: State, log0: seq<Effect>) returns (st: State, log: seq<Effect>, stop: bool)
    requires !st0.answered && !st0.unknown
    ensures st == AfterTurn(env, turn, st0) && log == log0 + TurnEffects(turn) && stop == EndsLoop(turn)
  {
    st, log, stop := st0, log0, true;
    if turn.selectionFails {
      var code := if env.locked then "setup_locked_channel_failed" else "get_channel_failed";
      st := st.(error := Some(LocalError(code, 500)));
      return;
    }
    if turn.billingError.Some? {
      st := st.(error := Some(LocalError("prepare_tiered_billing_failed", turn.billingError.value)));
      return;
    }
    if turn.bodyError.Some? {
      st := st.(error := Some(LocalError("read_request_body_failed", if turn.bodyError.value then 413 else 400)));
      return;
    }
    st, log, stop := SubmitOnce(turn, st, log);
  }

  /** The submit of a turn, and whether the loop ends with it. */
  method SubmitOnce(turn: Turn, st0: State, log0: seq<Effect>) returns (st: State, log: seq<Effect>, stop: bool)
    requires !st0.answered && !st0.unknown
    ensures st == NextState(st0, turn.attempt) && log == log0 + Tried(turn.attempt)
    ensures stop <==> turn.attempt.error.None? || turn.attempt.answered || turn.attempt.unknown
                      || !ShouldRetry(turn, turn.attempt.error.value)
  {
    var a := turn.attempt;
    st, log, stop := st0, log0 + [Submit(a)], true;
    st := State(st.billing || a.reserves, st.persisted || a.persists, st.answered || a.answered,
                st.unknown || a.unknown, a.result, a.error);
    if a.error.None? {
      return;
    }
    if st.answered || st.unknown {
      return;
    }
    if !a.error.value.local {
      log := log + [ReportChannelError];
    }
    stop := !ShouldRetry(turn, a.error.value);
  }

  lemma TurnKeeps(env: Env, turn: Turn, st: State, log: seq<Effect>)
    requires Honest(turn.attempt) && LoopOk(st, log) && AllRetryable(log)
    ensures !st.answered && !st.unknown
    ensures var st', log' := AfterTurn(env, turn, st), log + TurnEffects(turn);
      && LoopOk(st', log') && (!EndsLoop(turn) ==> AllRetryable(log'))
      && st'.error == TurnError(env, turn) && SubmitsOf(log') == SubmitsOf(log) + Made(turn)
  {
    if Submits(turn) {
      Attempted(st, log, turn.attempt);
    } else {
      assert log + TurnEffects(turn) == log;
    }
  }

  lemma Attempted(st: State, log: seq<Effect>, a: Attempt)
    requires Honest(a) && LoopOk(st, log) && AllRetryable(log)
    ensures !st.answered && !st.unknown
    ensures LoopOk(NextState(st, a), log + Tried(a)) && (Retryable(a) ==> AllRetryable(log + Tried(a)))
    ensures SubmitsOf(log + Tried(a)) == SubmitsOf(log) + [a]
  {
    AttemptAgrees(st, log, a);
    ReportsAfter(log, a);
    RetriesStay(log, a);
    SubmitsOfAppend(log, Submit(a));
    SubmitsOfNone(log + [Submit(a)], Tried(a)[1..]);
    assert Tried(a) == [Submit(a)] + Tried(a)[1..];
    assert log + [Submit(a)] + Tried(a)[1..] == log + Tried(a);
  }

  lemma AttemptAgrees(st: State, log: seq<Effect>, a: Attempt)
    requires Agrees(st, log) && AllRetryable(log)
    ensures Agrees(NextState(st, a), log + Tried(a))
    ensures Contacted(log + Tried(a)) <==> a.answered || a.unknown
    ensures Accepted(log + Tried(a)) <==> a.result == Some(true)
  {
    SplitLog(log, Tried(a));
    assert Submit(a) in Tried(a);
  }

  lemma ReportsAfter(log: seq<Effect>, a: Attempt)
    requires ReportsDecided(log)
    ensures ReportsDecided(log + Tried(a))
  {
    var more := log + Tried(a);
    assert forall i :: 0 <= i < |log| ==> more[i] == log[i];
    assert more[|log|] == Submit(a);
  }

  lemma RetriesStay(log: seq<Effect>, a: Attempt)
    requires AllRetryable(log)
    ensures RetriesJustified(log + Tried(a)) && forall e :: e in log + Tried(a) ==> SubmitEffect(e)
  {
    var more := log + Tried(a);
    assert forall i :: 0 <= i < |log| ==> more[i] == log[i] && log[i] in log;
  }

  /** With a durable intent its effect is processed; otherwise the consumption is logged. */
  function Booking(intent: bool): Effect {
    if intent then ApplyEffect else LogConsumption
  }

  function Finalized(env: Env, intent: bool): seq<Effect> {
    if env.settleFails then [Settle(false)] else [Settle(true), Booking(intent), WriteResponse(!env.writeFails)]
  }

  /** finalizeTaskSubmission: settle first, release the response only then. */
  method Finalize(env: Env, intent: bool) returns (error: Option<TaskError>, log: seq<Effect>)
    ensures log == Finalized(env, intent)
    ensures error.None? <==> !env.settleFails && !env.writeFails
    ensures error.Some? ==> error.value.code == if env.settleFails then SETTLEMENT_PENDING else RESPONSE_WRITE_FAILED
  {
    if env.settleFails {
      return Some(LocalError(SETTLEMENT_PENDING, 409)), [Settle(false)];
    }
    log := [Settle(true)];
    if intent {
      log := log + [ApplyEffect];
    } else {
      log := log + [LogConsumption];
    }
    if env.writeFails {
      return Some(LocalError(RESPONSE_WRITE_FAILED, 409)), log + [WriteResponse(false)];
    }
    return None, log + [WriteResponse(true)];
  }

  /** shouldMarkTaskSubmitNeedsReview */
  predicate ShouldMarkNeedsReview(err: TaskError, upstreamPersisted: bool, intentPersisted: bool) {
    if err.code == RESPONSE_WRITE_FAILED then false
    else err.code != SETTLEMENT_PENDING || !upstreamPersisted || !intentPersisted
  }

  /** The deferred block of a failed run. */
  method Deferred(st: State, err: TaskError, intentPersisted: bool) returns (log: seq<Effect>)
    ensures forall e :: e in log ==> e == Refund || IsMark(e)
    ensures |log| <= 2 && (|log| == 2 ==> log[0] == Refund && IsMark(log[1]))
    ensures Refund in log <==>
              st.billing && !st.answered && !st.unknown && !intentPersisted && err.code != RESPONSE_WRITE_FAILED
    ensures MarkNeedsReview in log <==>
              st.persisted && st.result == Some(true) && ShouldMarkNeedsReview(err, true, intentPersisted)
    ensures MarkAmbiguous in log <==> st.persisted && st.result != Some(true) && (st.answered || st.unknown)
    ensures MarkFailed in log <==> st.persisted && st.result != Some(true) && !st.answered && !st.unknown
  {
    log := [];
    var upstreamAmbiguous := st.answered || st.unknown;
    var upstreamPersisted := st.result == Some(true);
    if st.billing && !upstreamAmbiguous && !intentPersisted && err.code != RESPONSE_WRITE_FAILED {
      log := [Refund];
    }
    if st.persisted {
      if upstreamPersisted {
        if ShouldMarkNeedsReview(err, upstreamPersisted, intentPersisted) {
          log := log + [MarkNeedsReview];
        }
      } else if upstreamAmbiguous {
        log := log + [MarkAmbiguous];
      } else {
        log := log + [MarkFailed];
      }
    }
  }

  /** The intent the task row is stored with. */
  predicate IntentOf(env: Env, st: State, intent: bool) {
    if st.billing then env.prepare == Prepared(intent) else !intent
  }

  /** Between the loop and the response: persist the task with its settlement intent, then finalize. */
  method Complete(env: Env, st: State) returns (error: Option<TaskError>, intentPersisted: bool, log: seq<Effect>)
    requires st.error.None?
    ensures CodeOf(error) == FinalCode(env, st.billing, st.result == Some(true))
    ensures log != [] ==> IntentOf(env, st, intentPersisted)
    ensures log != [] ==> log == [PersistTask(intentPersisted)] + Finalized(env, intentPersisted)
    ensures log != [] ==> st.result == Some(true)
    ensures log == [] ==> error.Some? && !intentPersisted
    ensures log == [] ==> error.value.code != SETTLEMENT_PENDING && error.value.code != RESPONSE_WRITE_FAILED
    ensures log != [] ==> (error.None? <==> !env.settleFails && !env.writeFails)
    ensures log != [] && error.Some? ==>
              error.value.code == if env.settleFails then SETTLEMENT_PENDING else RESPONSE_WRITE_FAILED
  {
    log, intentPersisted := [], false;
    if st.result != Some(true) {
      return Some(LocalError("persist_task_failed", 500)), false, [];
    }
    var intent := false;
    if st.billing {
      match env.prepare
      case NoPreparer => return Some(LocalError("persist_billing_intent_failed", 500)), false, [];
      case PrepareFails => return Some(LocalError("persist_billing_intent_failed", 500)), false, [];
      case Prepared(some) => intent := some;
    }
    if env.persistFails {
      return Some(LocalError("persist_task_result_failed", 500)), false, [];
    }
    intentPersisted := intent;
    var finalLog;
    error, finalLog := Finalize(env, intent);
    log := [PersistTask(intent)] + finalLog;
  }

  /** What the three parts of a run have established about the effects in its log. */
  ghost predicate Parts(env: Env, st: State, error: Option<TaskError>, intent: bool,
                        submits: seq<Effect>, middle: seq<Effect>, tail: seq<Effect>) {
    && (forall e :: e in submits ==> SubmitEffect(e))
    && Agrees(st, submits)
    && Ends(env, st, error, intent, middle, tail)
  }

  /** What the parts after the loop have established. */
  ghost predicate Ends(env: Env, st: State, error: Option<TaskError>, intent: bool,
                       middle: seq<Effect>, tail: seq<Effect>) {
    && (middle == [] || (middle == [PersistTask(intent)] + Finalized(env, intent) && st.result == Some(true)))
    && (error.None? <==> middle != [] && !env.settleFails && !env.writeFails)
    && (middle == [] ==> !intent)
    && (error.Some? ==> TailOk(st, error.value, intent, tail))
    && (error.Some? && middle != [] ==>
          error.value.code == if env.settleFails then SETTLEMENT_PENDING else RESPONSE_WRITE_FAILED)
    && (error.Some? && middle == [] && st.result == Some(true) ==>
          error.value.code != SETTLEMENT_PENDING && error.value.code != RESPONSE_WRITE_FAILED)
    && (error.None? ==> tail == [])
  }

  ghost predicate TailOk(st: State, err: TaskError, intent: bool, tail: seq<Effect>) {
    && 1 <= |tail| <= 3 && tail[0] == RespondError(err.code)
    && (forall i :: 1 <= i < |tail| ==> tail[i] == Refund || IsMark(tail[i]))
    && (|tail| == 3 ==> tail[1] == Refund && IsMark(tail[2]))
    && (Refund in tail <==> st.billing && !st.answered && !st.unknown && !intent && err.code != RESPONSE_WRITE_FAILED)
    && (MarkNeedsReview in tail <==>
          st.persisted && st.result == Some(true) && ShouldMarkNeedsReview(err, true, intent))
    && (MarkAmbiguous in tail <==> st.persisted && st.result != Some(true) && (st.answered || st.unknown))
    && (MarkFailed in tail <==> st.persisted && st.result != Some(true) && !st.answered && !st.unknown)
  }

  /** Effects other than submits come from the last two parts, and the marks and the refund from the last. */
  lemma WhereEffectsAre(env: Env, st: State, error: Option<TaskError>, intent: bool,
                        submits: seq<Effect>, middle: seq<Effect>, tail: seq<Effect>)
    requires Parts(env, st, error, intent, submits, middle, tail)
    ensures var log := submits + (middle + tail);
            && (forall e :: !SubmitEffect(e) ==> (e in log <==> e in middle || e in tail))
            && Agrees(st, log)
  {
    assert forall e :: e in middle ==> !SubmitEffect(e) by {
      if middle != [] {
        MiddleEffects(env, intent);
      }
    }
    assert forall e :: e in tail ==> !SubmitEffect(e) by {
      if error.Some? {
        TailEffects(st, error.value, intent, tail);
      }
    }
    OnlySubmitsCount(st, submits, middle, tail);
  }

  lemma OnlySubmitsCount(st: State, submits: seq<Effect>, middle: seq<Effect>, tail: seq<Effect>)
    requires Agrees(st, submits) && forall e :: e in submits ==> SubmitEffect(e)
    requires forall e :: e in middle || e in tail ==> !SubmitEffect(e)
    ensures Agrees(st, submits + (middle + tail))
    ensures forall e :: !SubmitEffect(e) ==> (e in submits + (middle + tail) <==> e in middle || e in tail)
  {
    var rest := middle + tail;
    assert forall e :: e in rest ==> !SubmitEffect(e);
    SplitLog(submits, rest);
  }

  lemma AtMostOnce(env: Env, st: State, error: Option<TaskError>, intent: bool,
                   submits: seq<Effect>, middle: seq<Effect>, tail: seq<Effect>)
    requires Parts(env, st, error, intent, submits, middle, tail)
    ensures var log := submits + (middle + tail); MarksOnce(log) && RefundsOnce(log)
  {
    FrontUnmarked(env, intent, submits, middle);
    OnceBehind(st, error, intent, submits + middle, tail);
    assert submits + middle + tail == submits + (middle + tail);
  }

  lemma FrontUnmarked(env: Env, intent: bool, submits: seq<Effect>, middle: seq<Effect>)
    requires forall e :: e in submits ==> SubmitEffect(e)
    requires middle == [] || middle == [PersistTask(intent)] + Finalized(env, intent)
    ensures forall e :: e in submits + middle ==> e != Refund && !IsMark(e)
  {
    if middle != [] {
      MiddleEffects(env, intent);
    }
  }

  lemma OnceBehind(st: State, error: Option<TaskError>, intent: bool, front: seq<Effect>, tail: seq<Effect>)
    requires if error.Some? then TailOk(st, error.value, intent, tail) else tail == []
    requires forall e :: e in front ==> e != Refund && !IsMark(e)
    ensures MarksOnce(front + tail) && RefundsOnce(front + tail)
  {
    var log, n := front + tail, |front|;
    assert forall j :: 0 <= j < n ==> log[j] in front;
    assert forall j :: n <= j < |log| ==> log[j] == tail[j - n];
  }

  /** Which of the decisive effects the middle and the tail bring to a log. */
  ghost predicate Brought(env: Env, intent: bool, log: seq<Effect>, middle: seq<Effect>, tail: seq<Effect>) {
    MiddleOk(env, intent, middle != [], log) && forall e :: IsLast(e) ==> (e in log <==> e in tail)
  }

  /** The effects of the parts after the loop, when the task is `done`, that is persisted and to be settled. */
  predicate MiddleOk(env: Env, intent: bool, done: bool, log: seq<Effect>) {
    && (PersistTask(true) in log <==> done && intent)
    && (PersistTask(false) in log <==> done && !intent)
    && (Settle(true) in log <==> done && !env.settleFails)
    && (ApplyEffect in log <==> done && !env.settleFails && intent)
    && (LogConsumption in log <==> done && !env.settleFails && !intent)
    && (WriteResponse(true) in log <==> done && !env.settleFails && !env.writeFails)
    && (WriteResponse(false) in log <==> done && !env.settleFails && env.writeFails)
  }

  predicate IsLast(e: Effect) {
    e.RespondError? || e == Refund || IsMark(e)
  }

  /** The effects of a task that was persisted and is to be settled. */
  predicate InMiddle(env: Env, intent: bool, e: Effect) {
    || e == PersistTask(intent)
    || e == Settle(!env.settleFails)
    || (!env.settleFails && (e == Booking(intent) || e == WriteResponse(!env.writeFails)))
  }

  lemma DecisiveEffects(env: Env, intent: bool, log: seq<Effect>, middle: seq<Effect>, tail: seq<Effect>)
    requires middle == [] || middle == [PersistTask(intent)] + Finalized(env, intent)
    requires forall e :: e in tail ==> IsLast(e)
    requires forall e :: !SubmitEffect(e) ==> (e in log <==> e in middle || e in tail)
    ensures Brought(env, intent, log, middle, tail)
  {
    if middle != [] {
      MiddleEffects(env, intent);
    }
    EffectsBrought(env, intent, middle != [], log, tail);
  }

  lemma EffectsBrought(env: Env, intent: bool, done: bool, log: seq<Effect>, tail: seq<Effect>)
    requires forall e :: e in tail ==> IsLast(e)
    requires forall e :: !SubmitEffect(e) ==> (e in log <==> (done && InMiddle(env, intent, e)) || e in tail)
    ensures MiddleOk(env, intent, done, log) && forall e :: IsLast(e) ==> (e in log <==> e in tail)
  {
  }

  lemma TailEffects(st: State, err: TaskError, intent: bool, tail: seq<Effect>)
    requires TailOk(st, err, intent, tail)
    ensures forall e :: e in tail ==> IsLast(e)
  {
  }

  lemma MiddleEffects(env: Env, intent: bool)
    ensures forall e :: e in [PersistTask(intent)] + Finalized(env, intent) <==> InMiddle(env, intent, e)
  {
    var middle := [PersistTask(intent)] + Finalized(env, intent);
    assert middle[0] == PersistTask(intent) && middle[1] == Settle(!env.settleFails);
    assert !env.settleFails ==> middle[2] == Booking(intent) && middle[3] == WriteResponse(!env.writeFails);
  }

  /** What happens to the reservation and the row, from the parts of the run alone. */
  lemma Decided(env: Env, st: State, error: Option<TaskError>, intent: bool,
                submits: seq<Effect>, middle: seq<Effect>, tail: seq<Effect>)
    requires Parts(env, st, error, intent, submits, middle, tail)
    requires st.result == Some(true) ==> st.answered
    ensures var log := submits + (middle + tail);
            && SuccessDecided(error, log) && RefundDecided(error, log) && MarksDecided(error, log)
            && BookingDecided(log) && (forall code :: RespondError(code) in log <==> CodeOf(error) == Some(code))
            && Agrees(st, log) && Brought(env, intent, log, middle, tail)
  {
    var log := submits + (middle + tail);
    AtMostOnce(env, st, error, intent, submits, middle, tail);
    WhereEffectsAre(env, st, error, intent, submits, middle, tail);
    assert forall e :: e in tail ==> IsLast(e) by {
      if error.Some? {
        TailEffects(st, error.value, intent, tail);
      }
    }
    DecisiveEffects(env, intent, log, middle, tail);
    DecidedByEffects(env, st, error, intent, log, middle, tail);
  }

  lemma DecidedByEffects(env: Env, st: State, error: Option<TaskError>, intent: bool,
                         log: seq<Effect>, middle: seq<Effect>, tail: seq<Effect>)
    requires Agrees(st, log) && (st.result == Some(true) ==> st.answered)
    requires MarksOnce(log) && RefundsOnce(log)
    requires Brought(env, intent, log, middle, tail) && Ends(env, st, error, intent, middle, tail)
    ensures SuccessDecided(error, log) && RefundDecided(error, log) && MarksDecided(error, log)
    ensures BookingDecided(log) && forall code :: RespondError(code) in log <==> CodeOf(error) == Some(code)
  {
  }

  lemma Justified(submits: seq<Effect>, rest: seq<Effect>)
    requires RetriesJustified(submits) && forall e :: e in rest ==> !e.Submit?
    ensures RetriesJustified(submits + rest)
  {
    var log := submits + rest;
    assert forall j :: |submits| <= j < |log| ==> log[j] == rest[j - |submits|] && log[j] in rest;
    assert forall j :: 0 <= j < |submits| ==> log[j] == submits[j];
  }

  /** A settlement, a booking or a response write sits in `middle`, behind the persisted task and one another. */
  lemma Ordered(env: Env, st: State, error: Option<TaskError>, intent: bool,
                submits: seq<Effect>, middle: seq<Effect>, tail: seq<Effect>)
    requires Parts(env, st, error, intent, submits, middle, tail)
    ensures EffectsOrdered(submits + (middle + tail))
  {
    var log, n := submits + (middle + tail), |submits|;
    assert forall e :: e in tail ==> IsLast(e) by {
      if error.Some? {
        TailEffects(st, error.value, intent, tail);
      }
    }
    forall j | 0 <= j < |log|
      ensures OrderedAt(log, j)
    {
      if j < n {
        assert log[j] in submits;
      } else if j >= n + |middle| {
        assert log[j] == tail[j - n - |middle|] && log[j] in tail;
      } else {
        OrderedInMiddle(env, st, intent, submits, middle, tail, j);
      }
    }
  }

  lemma OrderedInMiddle(env: Env, st: State, intent: bool,
                        submits: seq<Effect>, middle: seq<Effect>, tail: seq<Effect>, j: nat)
    requires Agrees(st, submits) && st.result == Some(true)
    requires middle == [PersistTask(intent)] + Finalized(env, intent)
    requires |submits| <= j < |submits| + |middle|
    ensures OrderedAt(submits + (middle + tail), j)
  {
    var log, n := submits + (middle + tail), |submits|;
    assert log[..j] == submits + middle[..j - n];
    SplitLog(submits, middle[..j - n]);
    assert log[j] == middle[j - n] && middle[0] == PersistTask(intent);
    assert j > n ==> log[..j][n] == middle[0];
    assert j > n + 1 ==> log[..j][n + 1] == middle[1];
    assert j > n + 2 ==> log[..j][n + 2] == middle[2];
  }

  /** What every run of the handler has established, from the environment and the log of its effects. */
  ghost predicate IsOutcome(env: Env, error: Option<TaskError>, log: seq<Effect>) {
    && EffectsOrdered(log) && RetriesJustified(log)
    && SuccessDecided(error, log) && RefundDecided(error, log) && MarksDecided(error, log)
    && BookingDecided(log) && ReportsDecided(log) && ErrorDecided(env, error, log)
    && SubmitsOf(log) == Attempts(env, 0)
    && (!Contacted(log) ==> (error.Some? && error.value.code == RESPONSE_WRITE_FAILED <==> EndsWithLostCode(env)))
  }

  /** The whole handler, over every environment. */
  method RelayTask(env: Env) returns (error: Option<TaskError>, log: seq<Effect>)
    requires forall t :: t in env.turns ==> Honest(t.attempt)
    ensures IsOutcome(env, error, log)
  {
    var st;
    st, log := SubmitLoop(env);
    error := st.error;
    var intentPersisted, middle := false, [];
    if error.None? {
      error, intentPersisted, middle := Complete(env, st);
    }
    var tail := [];
    if error.Some? {
      var deferred := Deferred(st, error.value, intentPersisted);
      tail := [RespondError(error.value.code)] + deferred;
    }
    Assembled(env, st, error, intentPersisted, log, middle, tail);
    log := log + (middle + tail);
  }

  /** The three parts of a run make up its outcome. */
  lemma Assembled(env: Env, st: State, error: Option<TaskError>, intent: bool,
                  submits: seq<Effect>, middle: seq<Effect>, tail: seq<Effect>)
    requires Parts(env, st, error, intent, submits, middle, tail) && LoopOk(st, submits)
    requires st.error == LoopError(env, 0, None) && SubmitsOf(submits) == Attempts(env, 0)
    requires ErrorAfter(env, st, error) && (middle != [] ==> IntentOf(env, st, intent))
    ensures IsOutcome(env, error, submits + (middle + tail))
  {
    Decided(env, st, error, intent, submits, middle, tail);
    Ordered(env, st, error, intent, submits, middle, tail);
    NoneSubmits(env, st, error, intent, submits, middle, tail);
    Justified(submits, middle + tail);
    SubmitsOfNone(submits, middle + tail);
    ReportsStay(submits, middle + tail);
    ErrorAssembled(env, st, error, intent, submits + (middle + tail), middle, tail);
  }

  /** The error after the loop: that of the loop, or the first failure behind it. */
  predicate ErrorAfter(env: Env, st: State, error: Option<TaskError>) {
    if st.error.Some? then error == st.error
    else CodeOf(error) == FinalCode(env, st.billing, st.result == Some(true))
  }

  lemma ErrorAssembled(env: Env, st: State, error: Option<TaskError>, intent: bool,
                       log: seq<Effect>, middle: seq<Effect>, tail: seq<Effect>)
    requires Agrees(st, log) && Brought(env, intent, log, middle, tail)
    requires st.result == Some(true) ==> st.answered
    requires st.error == LoopError(env, 0, None) && ErrorAfter(env, st, error)
    requires middle != [] ==> IntentOf(env, st, intent)
    requires forall code :: RespondError(code) in log <==> CodeOf(error) == Some(code)
    ensures ErrorDecided(env, error, log)
    ensures !Contacted(log) ==> (error.Some? && error.value.code == RESPONSE_WRITE_FAILED <==> EndsWithLostCode(env))
  {
  }

  lemma ReportsStay(submits: seq<Effect>, rest: seq<Effect>)
    requires ReportsDecided(submits) && forall e :: e in rest ==> !SubmitEffect(e)
    ensures ReportsDecided(submits + rest)
  {
    var log := submits + rest;
    assert forall j :: |submits| <= j < |log| ==> log[j] == rest[j - |submits|] && log[j] in rest;
    assert forall j :: 0 <= j < |submits| ==> log[j] == submits[j];
  }

  lemma NoneSubmits(env: Env, st: State, error: Option<TaskError>, intent: bool,
                    submits: seq<Effect>, middle: seq<Effect>, tail: seq<Effect>)
    requires Parts(env, st, error, intent, submits, middle, tail)
    ensures forall e :: e in middle + tail ==> !SubmitEffect(e)
  {
    if middle != [] {
      MiddleEffects(env, intent);
    }
    if error.Some? {
      TailEffects(st, error.value, intent, tail);
    }
  }

  /**
   A reserved task row is marked failed only together with the refund, in every run of an
   environment, exactly unless the row was stored and the reservation made without reaching the
   upstream, and the loop ends with an attempt that fails with the code of a lost response.
  */
  lemma MarkedFailedIsRefunded(env: Env, error: Option<TaskError>, log: seq<Effect>)
    requires IsOutcome(env, error, log)
    ensures (MarkFailed in log && Reserved(log) ==> Refund in log) <==>
      !(EndsWithLostCode(env)
        && (exists a :: a in Attempts(env, 0) && a.persists) && (exists a :: a in Attempts(env, 0) && a.reserves)
        && (forall a :: a in Attempts(env, 0) ==> !a.answered && !a.unknown))
  {
    AttemptsOfLog(env, log);
  }

  /** What the log says about its submits, read off the environment. */
  lemma AttemptsOfLog(env: Env, log: seq<Effect>)
    requires SubmitsOf(log) == Attempts(env, 0)
    ensures Persisted(log) <==> exists a :: a in Attempts(env, 0) && a.persists
    ensures Reserved(log) <==> exists a :: a in Attempts(env, 0) && a.reserves
    ensures Contacted(log) <==> exists a :: a in Attempts(env, 0) && (a.answered || a.unknown)
  {
    forall a
      ensures a in Attempts(env, 0) <==> Submit(a) in log
    {
      InSubmits(log, a);
    }
    forall e | e in log && e.Submit?
      ensures e.attempt in Attempts(env, 0)
    {
      assert Submit(e.attempt) in log;
    }
  }

  /** No environment whose attempts never fail with that code, as those of the submit package, ends with it. */
  lemma {:induction false} LostCodeComesFromAttempts(env: Env, i: nat, last: Option<TaskError>)
    requires forall a :: a in Attempts(env, i) && a.error.Some? ==> a.error.value.code != RESPONSE_WRITE_FAILED
    requires last.Some? ==> last.value.code != RESPONSE_WRITE_FAILED
    ensures var error := LoopError(env, i, last); error.Some? ==> error.value.code != RESPONSE_WRITE_FAILED
    decreases |env.turns| - i
  {
    if i < |env.turns| && env.turns[i].budget >= 0 {
      var turn := env.turns[i];
      assert Submits(turn) ==> turn.attempt in Attempts(env, i);
      if !EndsLoop(turn) {
        LostCodeComesFromAttempts(env, i + 1, TurnError(env, turn));
      }
    }
  }

  /** So with such an environment every reserved task that is marked failed is refunded. */
  lemma FailedMarksAreRefunded(env: Env, error: Option<TaskError>, log: seq<Effect>)
    requires IsOutcome(env, error, log)
    requires forall t :: t in env.turns && t.attempt.error.Some? ==> t.attempt.error.value.code != RESPONSE_WRITE_FAILED
    requires MarkFailed in log && Reserved(log)
    ensures Refund in log
  {
    AttemptsAreTurns(env, 0);
    LostCodeComesFromAttempts(env, 0, None);
  }

  lemma {:induction false} AttemptsAreTurns(env: Env, i: nat)
    ensures forall a :: a in Attempts(env, i) ==> exists t :: t in env.turns && t.attempt == a
    decreases |env.turns| - i
  {
    if i < |env.turns| && env.turns[i].budget >= 0 {
      assert env.turns[i] in env.turns;
      AttemptsAreTurns(env, i + 1);
    }
  }

  /** One attempt that stores a row, reserves, and fails with that code before it reaches the upstream. */
  lemma LostCodeKeepsReservation(env: Env, a: Attempt, error: Option<TaskError>, log: seq<Effect>)
    requires env.turns == [Turn(0, false, None, None, a, false, false)] && IsOutcome(env, error, log)
    requires a.persists && a.reserves && !a.answered && !a.unknown
    requires a.error == Some(LocalError(RESPONSE_WRITE_FAILED, 500))
    ensures MarkFailed in log && Reserved(log) && Refund !in log
  {
    OneTurn(env, a);
    AttemptsOfLog(env, log);
  }

  lemma OneTurn(env: Env, a: Attempt)
    requires env.turns == [Turn(0, false, None, None, a, false, false)]
    requires a.error == Some(LocalError(RESPONSE_WRITE_FAILED, 500))
    ensures Attempts(env, 0) == [a] && EndsWithLostCode(env)
  {
    RetryRule(env, 0, None);
  }
}
