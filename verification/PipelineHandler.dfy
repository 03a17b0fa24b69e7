/** The research stage handler: permits, provider executions, the budget and the commit. */
module PipelineHandler {
  import opened Prelude
  import opened Budgets

  datatype ErrorClass =
    | RetryableRateLimit | RetryableServerError | RetryableNetwork | RetryableStorage | RetryableTimeout
    | InvalidData | SecurityViolation | BudgetExhausted | UserInput | Cancelled | Unclassified

  /** What a call can throw: a classified job error, a blocked stage, or anything else. */
  datatype Thrown = JobError(errorClass: ErrorClass) | StageBlocked(errorClass: ErrorClass) | OtherError

  predicate IsRetryable(c: ErrorClass)
  {
    c in {RetryableRateLimit, RetryableServerError, RetryableNetwork, RetryableStorage, RetryableTimeout, Unclassified}
  }

  datatype Status = Succeeded | Failed | CancelledCall | TimedOut | Rejected

  datatype Code =
    | NotConfigured | ProviderError | InvalidResponse | UnknownSourceId | Timeout | CancelledByCaller
    | RateLimited | ServerError | Refused | ContentFiltered | Truncated | ResponseTooLarge

  function ClassOf(code: Code, classification: Option<ErrorClass>, retryable: bool): ErrorClass
  {
    if classification.Some? then classification.value
    else
      match code
      case RateLimited => RetryableRateLimit
      case ServerError => RetryableServerError
      case Timeout => RetryableTimeout
      case CancelledByCaller => Cancelled
      case UnknownSourceId => SecurityViolation
      case NotConfigured => UserInput
      case ProviderError => if retryable then RetryableNetwork else Unclassified
      case _ => InvalidData
  }

  function StatusOf(code: Code): Status
  {
    match code
    case CancelledByCaller => CancelledCall
    case Timeout => TimedOut
    case NotConfigured => Failed
    case ProviderError => Failed
    case RateLimited => Failed
    case ServerError => Failed
    case _ => Rejected
  }

  // ---------------------------------------------------------------- effects and their discipline

  datatype Op =
    | LoadBundle | AdvanceStage | StartStage | AcquirePermit(granted: bool) | AssertFence | FindAttempt
    | StartExecution | RunProvider | Finish(status: Status, duplicate: bool) | Record(output: bool)
    | Release | Block | Commit
    /** The postflight budget decision, which is a computation and not a call. */
    | Judge(allowed: bool)

  /** A call that was made: what it threw, and whether it took effect. */
  datatype Event = Event(op: Op, thrown: Option<Thrown>, took: bool)

  /** How often each call was made, or returned; `status` is what the execution was finished with. */
  datatype Tally = Tally(
    permits: nat, releases: nat, starts: nat, runs: nat, finishes: nat, accepted: nat,
    records: nat, outputs: nat, allowed: nat, commits: nat, status: Option<Status>)

  ghost function Count(t: Tally, op: Op, ok: bool): Tally
  {
    match op
    case AcquirePermit(granted) => t.(permits := t.permits + One(granted && ok))
    case Release => t.(releases := t.releases + 1)
    case StartExecution => t.(starts := t.starts + One(ok))
    case RunProvider => t.(runs := t.runs + 1)
    case Finish(status, duplicate) =>
      t.(finishes := t.finishes + 1, accepted := t.accepted + One(ok && status == Succeeded && !duplicate), status := Some(status))
    case Record(output) => t.(records := t.records + 1, outputs := t.outputs + One(ok && output))
    case Judge(allowed) => t.(allowed := t.allowed + One(allowed))
    case Commit => t.(commits := t.commits + 1)
    case _ => t
  }

  ghost function TallyOf(events: seq<Event>): Tally
  {
    if events == [] then Tally(0, 0, 0, 0, 0, 0, 0, 0, 0, 0, None)
    else
      var e := events[|events| - 1];
      Count(TallyOf(events[..|events| - 1]), e.op, e.thrown.None?)
  }

  /**
    When an operation is in order: the provider is called only while the permit is held, an
    execution is finished and recorded once and in that order, the permit is given back once, and a
    commit holds no permit and, if the provider was called, follows a SUCCEEDED finish that was no
    duplicate, its recorded output and an allowed postflight.
   */
  ghost predicate InOrder(t: Tally, op: Op)
  {
    match op
    case AcquirePermit(_) => t.permits == 0
    case StartExecution => t.permits == 1 && t.releases == 0 && t.starts == 0
    case RunProvider => t.permits == 1 && t.releases == 0 && t.starts == 1 && t.runs == 0
    case Finish(_, _) => t.runs == 1 && t.finishes == 0
    case Record(_) => t.finishes == 1 && t.records == 0
    case Release => t.permits == 1 && t.releases == 0
    case Judge(_) => t.outputs == 1
    case Commit =>
      && t.permits == t.releases && t.commits == 0
      && (t.runs > 0 ==> t.finishes == 1 && t.accepted == 1 && t.outputs == 1 && t.allowed == 1)
    case _ => true
  }

  ghost predicate Disciplined(events: seq<Event>)
  {
    events != [] ==>
      var before, op := events[..|events| - 1], events[|events| - 1].op;
      Disciplined(before) && InOrder(TallyOf(before), op) && MayFollow(LastFailure(before), op)
  }

  /** A store call that threw; the provider may throw without one. */
  predicate Fails(e: Event)
  {
    e.op != RunProvider && e.thrown.Some?
  }

  ghost function LastFailure(events: seq<Event>): (f: Option<Event>)
  {
    if events == [] then None
    else if Fails(events[|events| - 1]) then Some(events[|events| - 1])
    else LastFailure(events[..|events| - 1])
  }

  /** Once a store call has thrown, the permit is given back and the stage perhaps blocked, and nothing else is done. */
  ghost predicate MayFollow(failure: Option<Event>, op: Op)
  {
    failure.None? || op == Release || op == Block
  }

  lemma HistoryGrows(events: seq<Event>, e: Event)
    ensures TallyOf(events + [e]) == Count(TallyOf(events), e.op, e.thrown.None?)
    ensures Disciplined(events + [e]) <==> Disciplined(events) && InOrder(TallyOf(events), e.op) && MayFollow(LastFailure(events), e.op)
    ensures LastFailure(events + [e]) == if Fails(e) then Some(e) else LastFailure(events)
  {
    hide Count, InOrder, MayFollow, Fails;
    var longer := events + [e];
    assert longer[..|longer| - 1] == events && longer[|events|] == e;
  }

  lemma CountsStart(t: Tally, ok: bool)
    ensures Count(t, StartExecution, ok) == t.(starts := t.starts + One(ok))
  {
  }

  lemma CountsRun(t: Tally, ok: bool)
    ensures Count(t, RunProvider, ok) == t.(runs := t.runs + 1)
  {
  }

  lemma CountsFinish(t: Tally, duplicate: bool, ok: bool)
    ensures Count(t, Finish(Succeeded, duplicate), ok) == t.(finishes := t.finishes + 1, accepted := t.accepted + One(ok && !duplicate), status := Some(Succeeded))
  {
  }

  lemma CountsRecord(t: Tally, output: bool, ok: bool)
    ensures Count(t, Record(output), ok) == t.(records := t.records + 1, outputs := t.outputs + One(ok && output))
  {
  }

  /** A disciplined history is in order at every one of its events. */
  lemma {:induction false} InOrderAt(events: seq<Event>, i: nat)
    requires Disciplined(events) && i < |events|
    ensures InOrder(TallyOf(events[..i]), events[i].op) && MayFollow(LastFailure(events[..i]), events[i].op)
  {
    var n := |events| - 1;
    if i < n {
      InOrderAt(events[..n], i);
      assert events[..n][..i] == events[..i];
    }
  }

  predicate IsGranted(e: Event) { e.op == AcquirePermit(true) && e.thrown.None? }

  predicate IsRelease(e: Event) { e.op == Release }

  predicate IsStarted(e: Event) { e.op == StartExecution && e.thrown.None? }

  predicate IsRun(e: Event) { e.op == RunProvider }

  predicate IsFinish(e: Event) { e.op.Finish? }

  predicate IsAccepted(e: Event) { e.op == Finish(Succeeded, false) && e.thrown.None? }

  predicate IsRecord(e: Event) { e.op.Record? }

  predicate IsOutput(e: Event) { e.op == Record(true) && e.thrown.None? }

  predicate IsAllowed(e: Event) { e.op == Judge(true) }

  predicate IsCommit(e: Event) { e.op == Commit }

  ghost function NumberOf(events: seq<Event>, kind: Event -> bool): (n: nat)
  {
    if events == [] then 0 else NumberOf(events[..|events| - 1], kind) + One(kind(events[|events| - 1]))
  }

  lemma {:induction false} NumberIff(events: seq<Event>, kind: Event -> bool)
    ensures NumberOf(events, kind) > 0 <==> exists j :: 0 <= j < |events| && kind(events[j])
  {
    if events != [] {
      var n := |events| - 1;
      NumberIff(events[..n], kind);
      assert forall j :: 0 <= j < n ==> events[j] == events[..n][j];
      assert kind(events[n]) ==> exists j :: 0 <= j < |events| && kind(events[j]);
    }
  }

  /** What the tally counts. */
  lemma {:induction false} TallyIs(events: seq<Event>)
    ensures var t := TallyOf(events);
      && t.permits == NumberOf(events, IsGranted) && t.releases == NumberOf(events, IsRelease)
      && t.starts == NumberOf(events, IsStarted) && t.runs == NumberOf(events, IsRun)
      && t.finishes == NumberOf(events, IsFinish) && t.accepted == NumberOf(events, IsAccepted)
      && t.records == NumberOf(events, IsRecord) && t.outputs == NumberOf(events, IsOutput)
      && t.allowed == NumberOf(events, IsAllowed) && t.commits == NumberOf(events, IsCommit)
  {
    if events != [] {
      TallyIs(events[..|events| - 1]);
    }
  }

  ghost predicate Earlier(events: seq<Event>, i: nat, kind: Event -> bool)
    requires i <= |events|
  {
    exists j :: 0 <= j < i && kind(events[j])
  }

  /**
    What comes before a call in a disciplined history. The provider is called once, for an execution
    that was started, while the permit is held; a finish follows the call and a record the finish, each
    once; a permit that was granted is given back once, and before a commit; and a commit after a call
    follows a SUCCEEDED finish that was no duplicate, the recorded output, and the judgement that allows
    it. Once a store call has thrown, only the permit is released and the stage perhaps blocked.
   */
  lemma CallsInOrder(events: seq<Event>, i: nat)
    requires Disciplined(events) && i < |events|
    ensures match events[i].op
      case AcquirePermit(_) => !Earlier(events, i, IsGranted)
      case StartExecution => Earlier(events, i, IsGranted) && !Earlier(events, i, IsRelease) && !Earlier(events, i, IsStarted)
      case RunProvider => Earlier(events, i, IsStarted) && !Earlier(events, i, IsRelease) && !Earlier(events, i, IsRun)
      case Finish(_, _) => Earlier(events, i, IsRun) && !Earlier(events, i, IsFinish)
      case Record(_) => Earlier(events, i, IsFinish) && !Earlier(events, i, IsRecord)
      case Release => Earlier(events, i, IsGranted) && !Earlier(events, i, IsRelease)
      case Judge(_) => Earlier(events, i, IsOutput)
      case Commit =>
        && (Earlier(events, i, IsGranted) ==> Earlier(events, i, IsRelease)) && !Earlier(events, i, IsCommit)
        && (Earlier(events, i, IsRun) ==> Earlier(events, i, IsAccepted) && Earlier(events, i, IsOutput) && Earlier(events, i, IsAllowed))
      case _ => true
    ensures Earlier(events, i, Fails) ==> events[i].op == Release || events[i].op == Block
  {
    InOrderAt(events, i);
    StoresOkIff(events[..i]);
    assert Earlier(events, i, Fails) ==> !StoresOk(events[..i]);
    hide TallyOf, NumberOf, Disciplined, StoresOk, LastFailure, Earlier;
    TallyEarlier(events, i);
  }

  lemma TallyEarlier(events: seq<Event>, i: nat)
    requires i <= |events|
    ensures var t := TallyOf(events[..i]);
      && (t.permits > 0 <==> Earlier(events, i, IsGranted)) && (t.releases > 0 <==> Earlier(events, i, IsRelease))
      && (t.starts > 0 <==> Earlier(events, i, IsStarted)) && (t.runs > 0 <==> Earlier(events, i, IsRun))
      && (t.finishes > 0 <==> Earlier(events, i, IsFinish)) && (t.accepted > 0 <==> Earlier(events, i, IsAccepted))
      && (t.records > 0 <==> Earlier(events, i, IsRecord)) && (t.outputs > 0 <==> Earlier(events, i, IsOutput))
      && (t.allowed > 0 <==> Earlier(events, i, IsAllowed)) && (t.commits > 0 <==> Earlier(events, i, IsCommit))
  {
    TallyIs(events[..i]);
    hide TallyOf, NumberOf, Earlier;
    EarlierIff(events, i, IsGranted);
    EarlierIff(events, i, IsRelease);
    EarlierIff(events, i, IsStarted);
    EarlierIff(events, i, IsRun);
    EarlierIff(events, i, IsFinish);
    EarlierIff(events, i, IsAccepted);
    EarlierIff(events, i, IsRecord);
    EarlierIff(events, i, IsOutput);
    EarlierIff(events, i, IsAllowed);
    EarlierIff(events, i, IsCommit);
  }

  lemma EarlierIff(events: seq<Event>, i: nat, kind: Event -> bool)
    requires i <= |events|
    ensures Earlier(events, i, kind) <==> NumberOf(events[..i], kind) > 0
  {
    NumberIff(events[..i], kind);
    hide NumberOf;
    assert forall j :: 0 <= j < i ==> events[..i][j] == events[j];
  }

  /** Every store call returned; the provider itself may have thrown. */
  ghost predicate StoresOk(events: seq<Event>)
  {
    forall i :: 0 <= i < |events| ==> events[i].op == RunProvider || events[i].thrown.None?
  }

  lemma {:induction false} StoresOkIff(events: seq<Event>)
    ensures StoresOk(events) <==> LastFailure(events).None?
  {
    if events != [] {
      var n := |events| - 1;
      StoresOkIff(events[..n]);
      assert StoresOk(events) <==> StoresOk(events[..n]) && !Fails(events[n]) by {
        assert forall i :: 0 <= i < n ==> events[i] == events[..n][i];
      }
    }
  }

  // ---------------------------------------------------------------- the environment of one attempt

  datatype Refs = Refs(runId: string, stageRowId: string, stage: string)

  datatype Job = Job(refs: Option<Refs>, attempts: nat, maxAttempts: nat)

  datatype Stored = NoOutput | Output(hashed: bool, parses: bool)

  /** A frozen budget; its cost limit may be stored under an older name or be missing. */
  datatype StoredBudget = StoredBudget(budget: Budget, cost: Option<Cap>, legacyCost: Option<Cap>)

  /** QUEUED and RUNNING stages can be started; a BLOCKED or SUCCEEDED one cannot. */
  datatype StageStatus = Startable | BlockedStage | SucceededStage

  /** What the stage row keeps between attempts. */
  datatype StageRow = StageRow(status: StageStatus, output: Stored)

  /** A recorded output carries its hash and has been parsed before. */
  const RECORDED := Output(true, true)

  const COMMITTED := StageRow(SucceededStage, RECORDED)

  /** What an operation does to the row once it takes effect. */
  function Effect(row: StageRow, op: Op): (r: StageRow)
  {
    match op
    case Record(output) => if output then row.(output := RECORDED) else row
    case Block => row.(status := BlockedStage)
    case Commit => COMMITTED
    case _ => row
  }

  predicate ChangesStores(op: Op)
  {
    op == Block || op == Commit || op.Record?
  }

  /** The row after a history: each call that took effect changed it in turn. */
  ghost function RowAfter(row: StageRow, events: seq<Event>): (r: StageRow)
  {
    if events == [] then row
    else
      var before, e := RowAfter(row, events[..|events| - 1]), events[|events| - 1];
      if e.took then Effect(before, e.op) else before
  }

  lemma RowGrows(row: StageRow, events: seq<Event>, e: Event)
    ensures RowAfter(row, events + [e]) == if e.took then Effect(RowAfter(row, events), e.op) else RowAfter(row, events)
  {
    assert (events + [e])[..|events + [e]| - 1] == events;
  }

  /** How many attempts the history has recorded in the run. */
  ghost function Recorded(events: seq<Event>): (n: nat)
  {
    if events == [] then 0
    else Recorded(events[..|events| - 1]) + One(IsRecording(events[|events| - 1]))
  }

  predicate IsRecording(e: Event)
  {
    e.op.Record? && e.took
  }

  /** The attempt's record took effect. */
  ghost predicate RecordTook(events: seq<Event>)
  {
    exists i :: 0 <= i < |events| && IsRecording(events[i])
  }

  lemma {:induction false} RecordTookIff(events: seq<Event>)
    ensures RecordTook(events) <==> Recorded(events) > 0
  {
    if events != [] {
      var n := |events| - 1;
      RecordTookIff(events[..n]);
      assert RecordTook(events) <==> RecordTook(events[..n]) || IsRecording(events[n]) by {
        assert forall i :: 0 <= i < n ==> events[i] == events[..n][i];
      }
    }
  }

  /** The stage was marked as blocked. */
  ghost predicate BlockTook(events: seq<Event>)
  {
    exists i :: 0 <= i < |events| && IsBlocking(events[i])
  }

  predicate IsBlocking(e: Event)
  {
    e.op == Block && e.took
  }

  /** A history without a commit leaves a stage blocked exactly if it was, or if some call that blocks it took effect. */
  lemma {:induction false} BlockedIff(row: StageRow, events: seq<Event>)
    requires TallyOf(events).commits == 0
    ensures RowAfter(row, events).status == if BlockTook(events) then BlockedStage else row.status
  {
    if events != [] {
      var n := |events| - 1;
      var before := events[..n];
      BlockedIff(row, before);
      assert BlockTook(events) <==> BlockTook(before) || IsBlocking(events[n]) by {
        assert forall i :: 0 <= i < n ==> events[i] == before[i];
      }
    }
  }

  datatype Bundle = Bundle(
    refs: Refs, attemptCount: nat, elapsedMs: nat, sources: nat, documentChunks: nat,
    stored: StoredBudget)

  /** The usage an answer reports, where it reports one; either count may be missing. */
  datatype Reported = Reported(inputTokens: Option<nat>, outputTokens: Option<nat>)

  datatype Answer =
    | Completed(usage: Option<Reported>, durationMs: nat, valid: bool)
    | Declined(usage: Option<Reported>, code: Code, classification: Option<ErrorClass>, retryable: bool)

  /** How a call ends; one that throws may still have taken effect. */
  datatype Fault = Fine | Throws(error: Thrown, applied: bool)

  datatype Env = Env(
    fault: (nat, Op) -> Fault, abortAt: Option<nat>, abortReason: Option<ErrorClass>,
    loaded: Bundle, reloaded: Bundle, inputError: Option<Thrown>, mock: bool,
    provider: string, model: string, prices: seq<Price>, permitGranted: bool, answer: Answer, duplicate: bool)

  predicate Applies(f: Fault)
  {
    f.Fine? || f.applied
  }

  function ErrorOf(f: Fault): Option<Thrown>
  {
    match f case Fine => None case Throws(error, _) => Some(error)
  }

  /**
    The environment decides what a call throws, and whether one that changes the stores takes effect;
    only the start of a stage may be refused by the store itself.
   */
  ghost predicate Obeys(env: Env, events: seq<Event>)
  {
    forall i :: 0 <= i < |events| ==> ObeysAt(env, i, events[i])
  }

  ghost predicate ObeysAt(env: Env, i: nat, e: Event)
  {
    && (ChangesStores(e.op) ==> (e.took <==> Applies(env.fault(i, e.op))))
    && (e.op.Judge? || e.thrown == ErrorOf(env.fault(i, e.op)) || (e.op == StartStage && e.thrown == Some(OtherError)))
  }

  /** The stage was loaded, started and loaded again. */
  ghost predicate Opens(events: seq<Event>)
  {
    |events| >= 3 && events[0].op == LoadBundle && events[1].op == StartStage && events[2].op == LoadBundle
  }

  /** And its permit was granted. */
  ghost predicate Permitted(events: seq<Event>)
  {
    Opens(events) && |events| >= 4 && events[3].op == AcquirePermit(true)
  }

  /**
    What has been done, and nothing else, before a permit is asked for, an execution is started or the
    provider is called. An execution is started only if the signal had not fired when the fence held.
   */
  ghost predicate Led(env: Env, before: seq<Event>, op: Op)
  {
    match op
    case AcquirePermit(_) => |before| == 3 && Opens(before)
    case StartExecution =>
      && |before| == 6 && Permitted(before) && before[4].op == AssertFence && before[5].op == FindAttempt
      && (env.abortAt.None? || 5 < env.abortAt.value)
    case RunProvider => |before| == 7 && Permitted(before) && before[6].op == StartExecution
    case Commit => Opens(before)
    case _ => true
  }

  ghost predicate Scripted(env: Env, events: seq<Event>)
  {
    forall s :: 0 <= s < |events| ==> Led(env, events[..s], events[s].op)
  }

  /** The provider has answered: its call returned before the signal fired. */
  ghost predicate HasAnswered(env: Env, events: seq<Event>)
  {
    exists i :: 0 <= i < |events| && IsAnswer(env, events[i], i)
  }

  predicate IsAnswer(env: Env, e: Event, i: nat)
  {
    e.op == RunProvider && e.thrown.None? && (env.abortAt.None? || i + 1 < env.abortAt.value)
  }

  function BudgetOf(b: Bundle): Option<Budget>
  {
    var cap := if b.stored.cost.Some? then b.stored.cost else b.stored.legacyCost;
    if cap.Some? && cap.value.Finite? then Some(b.stored.budget.(maxEstimatedCostUsd := cap.value)) else None
  }

  /** The frozen budget with its cost limit, which must be finite; the older name counts only without the newer one. */
  lemma BudgetIff(b: Bundle, r: Budget)
    ensures BudgetOf(b) == Some(r) <==>
      && r.maxEstimatedCostUsd.Finite? && r == b.stored.budget.(maxEstimatedCostUsd := r.maxEstimatedCostUsd)
      && (b.stored.cost == Some(r.maxEstimatedCostUsd) || (b.stored.cost.None? && b.stored.legacyCost == Some(r.maxEstimatedCostUsd)))
  {
  }

  function UsageOf(t: Totals, b: Bundle): Usage
  {
    Usage(t.providerRequests, t.searchRequests, t.inputTokens, t.outputTokens, t.estimatedCostUsd, t.costStatus,
          b.elapsedMs, b.attemptCount, b.sources, b.documentChunks)
  }

  function Preflight(env: Env): Next
  {
    Next(1, 0, 0, 0, 0.0, Some(ConfiguredCostStatus(env.prices, env.provider, env.model)), 0, 0, 0, 0)
  }

  /** The mock provider is charged zeros when it reports no usage at all. */
  function UsageReported(env: Env): Reported
  {
    match env.answer.usage
    case Some(reported) => reported
    case None => if env.mock then Reported(Some(0), Some(0)) else Reported(None, None)
  }

  function Amount(tokens: Option<nat>): nat
  {
    if tokens.Some? then tokens.value else 0
  }

  /** What the answered call is charged. */
  function CallOf(env: Env): Call
  {
    var reported := UsageReported(env);
    Call(Amount(reported.inputTokens), Amount(reported.outputTokens),
         EstimateProviderCost(env.prices, env.provider, env.model, reported.inputTokens, reported.outputTokens))
  }

  /** A call whose usage is not known. */
  function UnknownCall(): Call
  {
    Call(0, 0, Cost(Unknown, None))
  }

  function Postflight(env: Env): Next
  {
    var call := CallOf(env);
    Next(1, 0, call.inputTokens, call.outputTokens,
         if call.cost.estimatedCostUsd.Some? then call.cost.estimatedCostUsd.value else 0.0,
         Some(call.cost.status), if env.answer.Completed? then env.answer.durationMs else 0, 0, 0, 0)
  }

  predicate Allows(b: Budget, u: Usage, n: Next)
  {
    WithinBudget(b, Project(u, n)) && !UnknownCost(b, u, n)
  }

  datatype Outcome = Replayed | Committed

  /** How the guarded part ends: it throws into the enclosing handler, or it hands back a result that passes it by. */
  datatype Ending = Return(result: Result<Outcome, Thrown>) | Throw(error: Thrown)

  class StageRun {
    var events: seq<Event>
    var totals: Totals
    var row: StageRow
    /** The row and the requests of the run that the attempt began with, and whether the provider has answered. */
    ghost var start: StageRow
    ghost var begun: nat
    ghost var answered: bool

    /** The history is disciplined, and accounts for the row and for the requests of the run. */
    ghost predicate Sound(env: Env)
      reads this
    {
      AccountsFor(env, start, begun, answered, row, totals.providerRequests, events)
    }

    ghost function T(): Tally
      reads this
    {
      TallyOf(events)
    }

    /** The last store call that threw. */
    ghost function Err(): Option<Event>
      reads this
    {
      LastFailure(events)
    }

    /** One call of the handler that leaves the stores' rows alone. */
    method Ask(env: Env, op: Op) returns (thrown: Option<Thrown>)
      requires Sound(env) && InOrder(T(), op) && !ChangesStores(op) && op != RunProvider && op != StartStage && !op.Judge?
      requires MayFollow(Err(), op) && Led(env, events, op)
      modifies this`events
      ensures Sound(env) && T() == Count(old(T()), op, thrown.None?) && events == old(events) + [Event(op, thrown, thrown.None?)]
      ensures if thrown.Some? then Threw(Err(), op, thrown) else Err() == old(Err())
      ensures Calm(env) ==> thrown.None?
    {
      CalmFault(env, |events|, op);
      thrown := ErrorOf(env.fault(|events|, op));
      hide Disciplined, TallyOf, Count, InOrder, Sound, MayFollow, LastFailure, Calm, Led;
      Log(env, op, thrown);
    }

    /** A call the tally does not count. */
    method AskPlain(env: Env, op: Op) returns (thrown: Option<Thrown>)
      requires Sound(env) && Err().None? && (op == LoadBundle || op == AdvanceStage || op == AssertFence || op == FindAttempt)
      modifies this`events
      ensures Sound(env) && T() == old(T()) && events == old(events) + [Event(op, thrown, thrown.None?)]
      ensures if thrown.Some? then Threw(Err(), op, thrown) else Err().None?
      ensures Calm(env) ==> thrown.None?
    {
      hide TallyOf, Disciplined, Calm, Sound, LastFailure;
      thrown := Ask(env, op);
    }

    method Log(env: Env, op: Op, thrown: Option<Thrown>)
      requires Sound(env) && InOrder(T(), op) && !ChangesStores(op) && op != RunProvider && op != StartStage
      requires MayFollow(Err(), op) && Led(env, events, op)
      requires op.Judge? || thrown == ErrorOf(env.fault(|events|, op))
      modifies this`events
      ensures Sound(env) && T() == Count(old(T()), op, thrown.None?) && events == old(events) + [Event(op, thrown, thrown.None?)]
      ensures if thrown.Some? then Threw(Err(), op, thrown) else Err() == old(Err())
    {
      var e := Event(op, thrown, thrown.None?);
      hide TallyOf, LastFailure, Count, InOrder, AccountsFor, Effect, IsAnswer, IsRecording, MayFollow, Led;
      assert ObeysAt(env, |events|, e);
      hide ObeysAt, ErrorOf, ChangesStores;
      LeavesStores(env, row, e, |events|);
      NextEvent(env, start, begun, answered, row, totals.providerRequests, events, e);
      events := events + [e];
    }

    /** The call of the provider; what it gives is an answer unless the signal has fired by the time it returns. */
    method AskProvider(env: Env) returns (thrown: Option<Thrown>)
      requires Sound(env) && InOrder(T(), RunProvider) && Led(env, events, RunProvider) && !answered && Err().None?
      modifies this`events, this`answered
      ensures Sound(env) && T() == Count(old(T()), RunProvider, thrown.None?) && Err().None? && (old(Opens(events)) ==> Opens(events))
      ensures answered <==> thrown.None? && !Aborted(env)
      ensures thrown.Some? ==> ProviderThrows(env, thrown.value)
      ensures Calm(env) ==> thrown.None?
    {
      hide TallyOf, LastFailure, Count, InOrder, AccountsFor, Calm, MayFollow, Led;
      CalmFault(env, |events|, RunProvider);
      assert MayFollow(Err(), RunProvider) by {
        FirstFailure(RunProvider);
      }
      thrown := ErrorOf(env.fault(|events|, RunProvider));
      var e := Event(RunProvider, thrown, thrown.None?);
      assert thrown.Some? ==> ProviderThrows(env, thrown.value);
      assert Effect(row, RunProvider) == row && !IsRecording(e) && ObeysAt(env, |events|, e) && !Fails(e);
      hide Effect, IsRecording, ObeysAt, ProviderThrows, Fails, ErrorOf;
      NextEvent(env, start, begun, answered, row, totals.providerRequests, events, e);
      events := events + [e];
      answered := thrown.None? && !Aborted(env);
    }

    /** One call that may change the stage row; starting a stage that cannot be started is refused by the store. */
    method Do(env: Env, op: Op) returns (thrown: Option<Thrown>, took: bool)
      requires Sound(env) && InOrder(T(), op) && (op == StartStage || op == Block || op == Commit) && MayFollow(Err(), op) && Led(env, events, op)
      modifies this`events, this`row
      ensures Sound(env) && T() == Count(old(T()), op, thrown.None?) && events == old(events) + [Event(op, thrown, took)]
      ensures if thrown.Some? then Threw(Err(), op, thrown) else Err() == old(Err())
      ensures row == (if took then Effect(old(row), op) else old(row)) && (thrown.None? ==> took)
      ensures op == StartStage && old(row).status != Startable ==> thrown.Some? && !took
      ensures Calm(env) && op != Block && (op == StartStage ==> old(row).status == Startable) ==> thrown.None?
    {
      hide TallyOf, LastFailure, Count, InOrder, AccountsFor, Effect, IsAnswer, IsRecording, Calm, MayFollow;
      CalmFault(env, |events|, op);
      var fault := env.fault(|events|, op);
      if op == StartStage && row.status != Startable {
        thrown, took := Some(OtherError), false;
      } else {
        thrown, took := ErrorOf(fault), Applies(fault);
      }
      var e := Event(op, thrown, took);
      NoAnswer(env, e, |events|);
      assert ObeysAt(env, |events|, e);
      hide ObeysAt, ErrorOf, Applies, ChangesStores;
      NextEvent(env, start, begun, answered, row, totals.providerRequests, events, e);
      events := events + [e];
      if took {
        row := Effect(row, op);
      }
    }

    predicate Aborted(env: Env)
      reads this
      ensures Calm(env) ==> !Aborted(env)
    {
      env.abortAt.Some? && env.abortAt.value <= |events|
    }

    /** `failTerminalProviderAttempt`: only an exhausted budget blocks the stage. */
    method FailTerminal(env: Env, job: Job, errorClass: ErrorClass) returns (thrown: Option<Thrown>)
      requires Sound(env)
      modifies this`events, this`row
      ensures Sound(env) && T() == old(T())
      ensures if thrown.Some? then Threw(Err(), Block, thrown) else Err() == old(Err())
      ensures row.output == old(row).output && row.status in {old(row).status, BlockedStage}
      ensures Err().None? ==> Leaves(JobError(errorClass), old(row).status, row.status)
    {
      thrown := None;
      var took: bool;
      if !IsRetryable(errorClass) || job.attempts >= job.maxAttempts {
        if errorClass == BudgetExhausted {
          thrown, took := Do(env, Block);
        }
      }
    }

    /** `recordRunStageProviderAttempt`: the totals of the run are charged if it took effect. */
    method RecordAttempt(env: Env, call: Call, output: bool) returns (thrown: Option<Thrown>, ghost charged: Option<Call>)
      requires Sound(env) && T().finishes == 1 && T().records == 0 && Err().None?
      modifies this`events, this`row, this`totals
      ensures Sound(env) && T() == Count(old(T()), Record(output), thrown.None?) && (old(Opens(events)) ==> Opens(events))
      ensures if thrown.Some? then Threw(Err(), Record(output), thrown) else Err().None?
      ensures totals == (if charged.Some? then Charge(old(totals), call) else old(totals))
      ensures charged in {None, Some(call)} && (thrown.None? ==> charged == Some(call))
      ensures row == (if charged.Some? && output then old(row).(output := RECORDED) else old(row))
      ensures Calm(env) ==> thrown.None?
    {
      hide TallyOf, LastFailure, Count, AccountsFor, Calm;
      var fault := env.fault(|events|, Record(output));
      CalmFault(env, |events|, Record(output));
      thrown := ErrorOf(fault);
      var e := Event(Record(output), thrown, Applies(fault));
      assert InOrder(T(), e.op) && MayFollow(Err(), e.op) && ObeysAt(env, |events|, e);
      assert !IsAnswer(env, e, |events|) && IsRecording(e) == e.took && Charge(totals, call).providerRequests == totals.providerRequests + 1;
      assert Effect(row, e.op) == if output then row.(output := RECORDED) else row;
      assert thrown.None? ==> Applies(fault);
      hide InOrder, MayFollow, ObeysAt, IsAnswer, IsRecording, ErrorOf, Applies, Charge, Effect;
      NextEvent(env, start, begun, answered, row, totals.providerRequests, events, e);
      events := events + [e];
      charged := None;
      if Applies(fault) {
        row := Effect(row, Record(output));
        totals := Charge(totals, call);
        charged := Some(call);
      }
    }

    /** A started execution that did not succeed: finished, recorded, and the stage perhaps blocked. */
    method CloseFailed(env: Env, job: Job, status: Status, call: Call, errorClass: ErrorClass)
      returns (thrown: Thrown, ghost charged: Option<Call>)
      requires Sound(env) && T().runs == 1 && T().finishes == 0 && T().records == 0 && status != Succeeded && Err().None?
      modifies this`events, this`row, this`totals
      ensures Sound(env)
      ensures T() == old(T()).(finishes := 1, records := T().records, status := Some(status)) && T().records <= 1
      ensures if Err().Some? then Plain(Err().value, thrown) else T().records == 1 && thrown == JobError(errorClass)
      ensures totals == (if charged.Some? then Charge(old(totals), call) else old(totals))
      ensures charged in {None, Some(call)} && (Calm(env) ==> charged == Some(call))
      ensures row.output == old(row).output && row.status in {old(row).status, BlockedStage}
      ensures Err().None? ==> Leaves(thrown, old(row).status, row.status)
    {
      hide TallyOf, Disciplined, LastFailure, AccountsFor, Calm, Charge;
      charged := None;
      var failed := Ask(env, Finish(status, env.duplicate));
      if failed.Some? {
        return failed.value, None;
      }
      failed, charged := RecordAttempt(env, call, false);
      if failed.Some? {
        return failed.value, charged;
      }
      failed := FailTerminal(env, job, errorClass);
      thrown := if failed.Some? then failed.value else JobError(errorClass);
    }

    /** The body of the `try`. */
    method TryCall(env: Env) returns (started: bool, cause: Option<Thrown>)
      requires Sound(env) && T() == Tally(1, 0, 0, 0, 0, 0, 0, 0, 0, 0, None) && !answered && Err().None? && |events| == 4 && Permitted(events)
      modifies this`events, this`answered
      ensures answered <==> cause.None?
      ensures Sound(env) && (started ==> Err().None?)
      ensures Err().Some? ==> InCall(Err().value.op) && cause == Err().value.thrown
      ensures T() == Tally(1, 0, One(started), One(started), 0, 0, 0, 0, 0, 0, None)
      ensures cause.None? ==> started && Opens(events)
      ensures Calm(env) ==> cause.None?
      ensures cause.Some? && Err().None? && !Aborted(env) ==> started && ProviderThrows(env, cause.value)
    {
      hide TallyOf, Disciplined, LastFailure, AccountsFor, Calm, Count, ProviderThrows, AbortClass, HasAnswered;
      started := false;
      cause := AskPlain(env, AssertFence);
      if cause.Some? {
        return;
      }
      if Aborted(env) {
        return false, Some(JobError(AbortClass(env.abortReason, OtherError)));
      }
      cause := AskPlain(env, FindAttempt);
      if cause.Some? {
        return;
      }
      ghost var held := T();
      assert Led(env, events, StartExecution);
      cause := Ask(env, StartExecution);
      CountsStart(held, cause.None?);
      if cause.Some? {
        return;
      }
      started := true;
      ghost var executing := T();
      cause := AskProvider(env);
      CountsRun(executing, cause.None?);
      if cause.None? && Aborted(env) {
        cause := Some(JobError(AbortClass(env.abortReason, OtherError)));
      }
    }

    /** The call itself, with its `catch` and `finally`: the permit is always given back. */
    method CallProvider(env: Env, job: Job) returns (failed: Option<Thrown>, ghost charged: Option<Call>)
      requires Sound(env) && T() == Tally(1, 0, 0, 0, 0, 0, 0, 0, 0, 0, None) && !answered && Err().None? && |events| == 4 && Permitted(events)
      modifies this`events, this`row, this`totals, this`answered
      ensures Sound(env) && (Err().Some? ==> failed.Some? && Explains(env, Err().value, failed.value))
      ensures failed.None? ==> T() == Tally(1, 1, 1, 1, 0, 0, 0, 0, 0, 0, None)
      ensures T() == Tally(1, 1, T().starts, T().runs, T().finishes, 0, T().records, 0, 0, 0, T().status) && Settled(T())
      ensures failed.Some? && Err().None? ==> FullyRecorded(T())
      ensures totals == (if charged.Some? then Charge(old(totals), charged.value) else old(totals))
      ensures failed.None? ==> answered && charged == None && row == old(row)
      ensures charged.Some? ==> !answered && charged.value == UnknownCall()
      ensures row.output == old(row).output && row.status in {old(row).status, BlockedStage}
      ensures Calm(env) ==> failed.None?
      ensures failed.Some? && Err().None? ==> !answered && Unanswered(env, T(), failed.value) && Leaves(failed.value, old(row).status, row.status)
      ensures failed.None? ==> T().status == None && Opens(events)
    {
      hide TallyOf, Disciplined, LastFailure, AccountsFor, Calm, Charge;
      charged := None;
      var started, cause := TryCall(env);
      failed := None;
      if cause.Some? {
        var failure: Thrown;
        failure, charged := AfterFailedCall(env, job, started, cause.value);
        failed := Some(failure);
      }
      var unreleased := Ask(env, Release);
      if unreleased.Some? {
        failed := unreleased;
      }
    }

    /** The `catch` of the call: an execution that was started is finished and recorded. */
    method AfterFailedCall(env: Env, job: Job, started: bool, cause: Thrown) returns (thrown: Thrown, ghost charged: Option<Call>)
      requires Sound(env) && T().starts == T().runs == One(started) && T().finishes == 0 && T().records == 0 && (started ==> Err().None?)
      requires Err().Some? ==> InCall(Err().value.op) && Err().value.thrown == Some(cause)
      modifies this`events, this`row, this`totals
      ensures Sound(env) && (if Err().Some? then Explains(env, Err().value, thrown) else old(Err()).None?)
      ensures T() == old(T()).(finishes := T().starts, records := T().records, status := T().status) && T().records <= T().finishes
      ensures Err().None? ==> T().records == T().starts
      ensures charged in {None, Some(UnknownCall())}
      ensures totals == (if charged.Some? then Charge(old(totals), charged.value) else old(totals))
      ensures row.output == old(row).output && row.status in {old(row).status, BlockedStage}
      ensures Err().None? ==> Leaves(thrown, old(row).status, row.status)
      ensures Err().None? ==>
        thrown.errorClass == if old(Aborted(env)) then AbortClass(env.abortReason, cause) else if cause.JobError? then cause.errorClass else RetryableNetwork
      ensures started && Err().None? ==>
        T().status == Some(if !old(Aborted(env)) then Failed else if thrown.errorClass == RetryableTimeout then TimedOut else CancelledCall)
      ensures !started ==> T().status == old(T()).status
    {
      hide TallyOf, Disciplined, LastFailure, AccountsFor, Calm, Charge;
      charged := None;
      var errorClass :=
        if Aborted(env) then AbortClass(env.abortReason, cause)
        else if cause.JobError? then cause.errorClass
        else RetryableNetwork;
      if started {
        var status := if !Aborted(env) then Failed else if errorClass == RetryableTimeout then TimedOut else CancelledCall;
        thrown, charged := CloseFailed(env, job, status, UnknownCall(), errorClass);
      } else {
        var failed := FailTerminal(env, job, errorClass);
        thrown := if failed.Some? then failed.value else JobError(errorClass);
      }
    }

    /** `reuseOrCommitOutput`. */
    method CommitOutput(env: Env) returns (r: Result<Outcome, Thrown>)
      requires Sound(env) && InOrder(T(), Commit) && Err().None? && Opens(events)
      modifies this`events, this`row
      ensures Sound(env) && T() == old(T()).(commits := 1)
      ensures if Err().Some? then r.Failure? && Plain(Err().value, r.error) else r == Success(Committed) && Advanced(events)
      ensures row == old(row) || row == COMMITTED
      ensures r.Success? ==> row == COMMITTED
      ensures Calm(env) ==> r.Success?
    {
      hide TallyOf, Disciplined, LastFailure, AccountsFor, Calm;
      var failed, took := Do(env, Commit);
      if failed.None? {
        failed := AskPlain(env, AdvanceStage);
      }
      r := if failed.Some? then Failure(failed.value) else Success(Committed);
    }

    /** `blockForBudget`. */
    method BlockForBudget(env: Env) returns (thrown: Thrown)
      requires Sound(env) && Err().None?
      modifies this`events, this`row
      ensures Sound(env) && T() == old(T())
      ensures if Err().Some? then Plain(Err().value, thrown) else thrown == JobError(BudgetExhausted) && row.status == BlockedStage
      ensures row == old(row) || row == old(row).(status := BlockedStage)
    {
      var failed, took := Do(env, Block);
      thrown := if failed.Some? then failed.value else JobError(BudgetExhausted);
    }

    /** What follows an answered call. */
    method Settle(env: Env, job: Job, b: Budget, before: Usage) returns (ending: Ending, ghost charged: Option<Call>)
      requires Sound(env) && T() == Tally(1, 1, 1, 1, 0, 0, 0, 0, 0, 0, None) && Err().None? && Opens(events)
      modifies this`events, this`row, this`totals
      ensures Sound(env) && Settled(T()) && if Err().Some? then Said(ending).Failure? && Plain(Err().value, Said(ending).error) else FullyRecorded(T())
      ensures charged in {None, Some(CallOf(env))} && (Calm(env) ==> charged == Some(CallOf(env)))
      ensures totals == (if charged.Some? then Charge(old(totals), charged.value) else old(totals))
      ensures T().runs == 1 && (T().commits == 1 ==> Accepted(env, b, before) && charged == Some(CallOf(env)))
      ensures ending.Return? && ending.result.Success? ==> ending.result.value == Committed && T().commits == 1 && row == COMMITTED && Advanced(events)
      ensures Calm(env) && Answered(env) ==> T().outputs == 1 && T().commits == One(Accepted(env, b, before))
      ensures Calm(env) && Accepted(env, b, before) ==> ending == Return(Success(Committed))
      ensures Kept(old(row), T(), row) && (Err().None? && LeftOver(T()) ==> row.status == BlockedStage)
      ensures Err().None? && ending.Throw? ==> ending.error.JobError?
      ensures Err().None? ==> Surfaced(ending) == Verdict(env, b, before) && Follows(Surfaced(ending), old(row).status, row.status)
      ensures T().status == Some(FinalStatus(env))
    {
      hide TallyOf, Disciplined, LastFailure, AccountsFor, Calm, Charge, CallOf, Postflight, Allows;
      charged := None;
      var call := CallOf(env);
      if env.answer.Completed? && env.answer.valid {
        ending, charged := SettleValid(env, job, b, before, call);
        return;
      }
      var errorClass := if env.answer.Declined?
        then ClassOf(env.answer.code, env.answer.classification, env.answer.retryable) else InvalidData;
      var status := if env.answer.Declined? then StatusOf(env.answer.code) else Rejected;
      var thrown: Thrown;
      thrown, charged := CloseFailed(env, job, status, call, errorClass);
      ending := Throw(thrown);
    }

    /** A successful answer with valid references. */
    method SettleValid(env: Env, job: Job, b: Budget, before: Usage, call: Call) returns (ending: Ending, ghost charged: Option<Call>)
      requires Sound(env) && T() == Tally(1, 1, 1, 1, 0, 0, 0, 0, 0, 0, None) && Err().None? && Opens(events)
      modifies this`events, this`row, this`totals
      ensures Sound(env) && Settled(T()) && if Err().Some? then Said(ending).Failure? && Plain(Err().value, Said(ending).error) else FullyRecorded(T())
      ensures charged in {None, Some(call)} && (Calm(env) ==> charged == Some(call))
      ensures totals == (if charged.Some? then Charge(old(totals), charged.value) else old(totals)) && T().runs == 1
      ensures T().commits == 1 ==> !env.duplicate && Allows(b, before, Postflight(env)) && charged == Some(call)
      ensures ending.Return? && ending.result.Success? ==> ending.result.value == Committed && T().commits == 1 && row == COMMITTED && Advanced(events)
      ensures Calm(env) && !env.duplicate ==> T().outputs == 1 && T().commits == One(Allows(b, before, Postflight(env)))
      ensures Calm(env) && !env.duplicate && Allows(b, before, Postflight(env)) ==> ending == Return(Success(Committed))
      ensures Kept(old(row), T(), row) && (Err().None? && LeftOver(T()) ==> row.status == BlockedStage)
      ensures Err().None? && ending.Throw? ==> ending.error.JobError?
      ensures Err().None? ==> Follows(Surfaced(ending), old(row).status, row.status)
      ensures Err().None? ==>
        Surfaced(ending) ==
          (if env.duplicate then Failure(JobError(InvalidData))
           else if Allows(b, before, Postflight(env)) then Success(Committed) else Failure(JobError(BudgetExhausted)))
      ensures T().status == Some(Succeeded)
    {
      hide TallyOf, Disciplined, LastFailure, AccountsFor, Calm, Charge, Postflight, Allows;
      var failed: Option<Thrown>;
      failed, charged := FinishValid(env, call);
      if failed.Some? {
        return Throw(failed.value), charged;
      }
      if env.duplicate {
        failed := FailTerminal(env, job, InvalidData);
        return Throw(if failed.Some? then failed.value else JobError(InvalidData)), charged;
      }
      ending := JudgeAndCommit(env, b, before);
    }

    /** The execution is finished as a success and recorded, with its output unless it is a duplicate. */
    method FinishValid(env: Env, call: Call) returns (failed: Option<Thrown>, ghost charged: Option<Call>)
      requires Sound(env) && T() == Tally(1, 1, 1, 1, 0, 0, 0, 0, 0, 0, None) && Err().None? && Opens(events)
      modifies this`events, this`row, this`totals
      ensures Sound(env) && T() == Tally(1, 1, 1, 1, 1, T().accepted, T().records, T().outputs, 0, 0, Some(Succeeded)) && T().records <= 1 && Opens(events)
      ensures failed.None? ==> T() == Tally(1, 1, 1, 1, 1, One(!env.duplicate), 1, One(!env.duplicate), 0, 0, Some(Succeeded)) && charged == Some(call)
      ensures failed.Some? ==> T().outputs == 0
      ensures if failed.Some? then Err().Some? && Plain(Err().value, failed.value) else Err().None?
      ensures totals == (if charged.Some? then Charge(old(totals), call) else old(totals)) && charged in {None, Some(call)}
      ensures row == (if charged.Some? && !env.duplicate then old(row).(output := RECORDED) else old(row))
      ensures Calm(env) ==> failed.None?
    {
      hide TallyOf, Disciplined, LastFailure, AccountsFor, Calm, Charge, Count;
      charged := None;
      ghost var answered := T();
      failed := Ask(env, Finish(Succeeded, env.duplicate));
      CountsFinish(answered, env.duplicate, failed.None?);
      if failed.Some? {
        return;
      }
      ghost var finished := T();
      failed, charged := RecordAttempt(env, call, !env.duplicate);
      CountsRecord(finished, !env.duplicate, failed.None?);
    }

    /** The postflight check, and the commit it allows. */
    method JudgeAndCommit(env: Env, b: Budget, before: Usage) returns (ending: Ending)
      requires Sound(env) && T() == Tally(1, 1, 1, 1, 1, 1, 1, 1, 0, 0, Some(Succeeded)) && Err().None? && Opens(events)
      modifies this`events, this`row
      ensures Sound(env) && (Err().Some? ==> Said(ending).Failure? && Plain(Err().value, Said(ending).error))
      ensures T() == old(T()).(allowed := T().allowed, commits := T().commits)
      ensures T().commits == One(Allows(b, before, Postflight(env)))
      ensures ending.Return? && (ending.result.Success? ==> ending.result.value == Committed && T().commits == 1 && row == COMMITTED && Advanced(events))
      ensures Calm(env) && T().commits == 1 ==> ending == Return(Success(Committed))
      ensures row == old(row) || (T().commits == 0 && row == old(row).(status := BlockedStage)) || (T().commits == 1 && row == COMMITTED)
      ensures Err().None? && T().commits == 0 ==> row.status == BlockedStage && ending == Return(Failure(JobError(BudgetExhausted)))
      ensures Err().None? && T().commits == 1 ==> row.status == SucceededStage && ending == Return(Success(Committed))
    {
      hide TallyOf, Disciplined, LastFailure, AccountsFor, Calm, Postflight;
      var postflight := CheckRunBudget(b, before, Postflight(env));
      hide WithinBudget, UnknownCost, Project;
      Log(env, Judge(postflight.allowed), None);
      if !postflight.allowed {
        var thrown := BlockForBudget(env);
        return Return(Failure(thrown));
      }
      var r := CommitOutput(env);
      ending := Return(r);
    }

    /** Preflight, permit, call and what follows, once the stage is running and holds no output. */
    method RunCall(env: Env, job: Job, b: Budget) returns (ending: Ending, ghost charged: Option<Call>)
      requires Sound(env) && T() == Tally(0, 0, 0, 0, 0, 0, 0, 0, 0, 0, None) && !answered && Err().None? && |events| == 3 && Opens(events)
      modifies this`events, this`row, this`totals, this`answered
      ensures charged.Some? ==> charged.value == if answered then CallOf(env) else UnknownCall()
      ensures Sound(env) && Settled(T())
      ensures if Err().Some? then Said(ending).Failure? && Explains(env, Err().value, Said(ending).error) else FullyRecorded(T())
      ensures Attempt(b, old(totals), charged, totals)
      ensures var before := UsageOf(old(totals), env.reloaded);
        T().commits == 1 ==> T().runs == 1 && env.permitGranted && Allows(b, before, Preflight(env)) && Accepted(env, b, before) && charged == Some(CallOf(env))
      ensures ending.Return? && ending.result.Success? ==> ending.result.value == Committed && T().commits == 1 && row == COMMITTED && Advanced(events)
      ensures var before := UsageOf(old(totals), env.reloaded);
        Calm(env) && env.permitGranted && Allows(b, before, Preflight(env)) && Accepted(env, b, before)
        ==> ending == Return(Success(Committed)) && T().runs == 1
      ensures var before := UsageOf(old(totals), env.reloaded);
        Calm(env) && env.permitGranted && Allows(b, before, Preflight(env)) && Answered(env)
        ==> T().outputs == 1 && T().commits == One(Accepted(env, b, before))
      ensures Kept(old(row), T(), row) && (Err().None? && LeftOver(T()) ==> row.status == BlockedStage)
      ensures T().commits == 1 ==> T().runs == 1
      ensures Err().None? && ending.Throw? ==> ending.error.JobError?
      ensures Err().None? ==>
        && CallEnds(env, b, UsageOf(old(totals), env.reloaded), answered, T(), Surfaced(ending))
        && Follows(Surfaced(ending), old(row).status, row.status)
      ensures Calm(env) && env.permitGranted && Allows(b, UsageOf(old(totals), env.reloaded), Preflight(env)) ==> answered && charged.Some?
    {
      hide TallyOf, Disciplined, LastFailure, AccountsFor, Calm, Charge, CallOf, Postflight, Accepted, Verdict, Unanswered;
      charged := None;
      var before := UsageOf(totals, env.reloaded);
      var preflight := CheckRunBudget(b, before, Preflight(env));
      if !preflight.allowed {
        var thrown := BlockForBudget(env);
        return Return(Failure(thrown)), None;
      }
      assert MayCall(b, totals);
      hide WithinBudget, UnknownCost, Project, MayCall, UsageOf, Preflight, Allows;
      var failed := Ask(env, AcquirePermit(env.permitGranted));
      if failed.Some? {
        return Throw(failed.value), None;
      }
      if !env.permitGranted {
        failed := FailTerminal(env, job, RetryableRateLimit);
        return Throw(if failed.Some? then failed.value else JobError(RetryableRateLimit)), None;
      }
      assert Permitted(events);
      hide Permitted, Opens, Leaves, Attempt;
      failed, charged := CallProvider(env, job);
      if failed.Some? {
        return Throw(failed.value), charged;
      }
      ending, charged := Settle(env, job, b, before);
    }

    /** The part the outer `catch` guards. */
    method Guarded(env: Env, job: Job) returns (ending: Ending, ghost charged: Option<Call>)
      requires Sound(env) && T() == Tally(0, 0, 0, 0, 0, 0, 0, 0, 0, 0, None) && !answered && Err().None?
      requires |events| == 1 && events[0].op == LoadBundle
      modifies this`events, this`row, this`totals, this`answered
      ensures charged.Some? ==> charged.value == if answered then CallOf(env) else UnknownCall()
      ensures Sound(env) && Settled(T())
      ensures if Err().Some? then Said(ending).Failure? && Explains(env, Err().value, Said(ending).error) else FullyRecorded(T())
      ensures ChargedUnder(BudgetOf(env.reloaded), old(totals), charged, totals)
      ensures T().commits == 1 && T().runs > 0 ==> FreshOutput(env, old(row), old(totals)) && charged == Some(CallOf(env))
      ensures T().commits == 1 && T().runs == 0 ==> KeptOutput(old(row)) && T().allowed == 0
      ensures ending.Return? && ending.result.Success? ==> ending.result.value == Committed && T().commits == 1 && row == COMMITTED && Advanced(events)
      ensures Calm(env) && Fetched(env, old(row), old(totals)) ==> T().outputs == 1 && T().commits == One(FreshOutput(env, old(row), old(totals)))
      ensures Calm(env) && FreshOutput(env, old(row), old(totals)) ==> ending == Return(Success(Committed)) && T().runs == 1
      ensures Calm(env) && Called(env, old(row), old(totals)) ==> answered && charged.Some?
      ensures Calm(env) && KeptOutput(old(row)) ==> ending == Return(Success(Committed)) && T().runs == 0
      ensures Kept(old(row), T(), row) && (Err().None? && LeftOver(T()) ==> row.status == BlockedStage)
      ensures Err().None? ==>
        && GuardedEnds(env, old(row), old(totals), answered, T(), Surfaced(ending))
        && (ending.Throw? && ending.error.StageBlocked? <==> Stuck(env, old(row)))
        && (!Stuck(env, old(row)) ==> StatusFollows(env, old(row), Surfaced(ending), row.status))
      ensures old(row).status != Startable ==> T().runs == 0 && T().commits == 0 && charged == None && ending.Throw?
    {
      hide TallyOf, Disciplined, LastFailure, AccountsFor, Calm, Charge, MayCall, CallOf, Postflight, Preflight, Allows, UsageOf, Answered;
      charged := None;
      var failed, took := Do(env, StartStage);
      if failed.None? {
        failed := AskPlain(env, LoadBundle);
      }
      if failed.Some? {
        return Throw(failed.value), None;
      }
      if Reusable(row) {
        if !row.output.parses {
          return Throw(OtherError), None;
        }
        var r := CommitOutput(env);
        return Return(r), None;
      }
      if env.inputError.Some? {
        return Throw(env.inputError.value), None;
      }
      var budget := BudgetOf(env.reloaded);
      if budget.None? {
        return Throw(StageBlocked(InvalidData)), None;
      }
      hide BudgetOf;
      ending, charged := RunCall(env, job, budget.value);
    }

    /**
      The handler. On every path, whatever calls fail and whenever the signal fires: the history is
      disciplined, the permit is back, no execution is started once the signal has fired, and at most
      one call is charged, after its preflight. A store call that threw fails the attempt with its
      error. When every store call returns, each started execution has exactly one finish and one
      record, and `Ends` says how the attempt ends. A provider output obtained here is committed only
      under `FreshOutput`, an output kept from an earlier attempt only under `KeptOutput`, and in a
      quiet environment exactly then.
     */
    method Handle(env: Env, job: Job) returns (r: Result<Outcome, Thrown>, ghost charged: Option<Call>)
      modifies this
      ensures Disciplined(events) && Settled(TallyOf(events))
      ensures StoresOk(events) ==> TallyOf(events).finishes == TallyOf(events).records == TallyOf(events).starts
      ensures if StoresOk(events) then LastFailure(events).None?
        else LastFailure(events).Some? && r.Failure? && Reports(env, LastFailure(events).value, r.error)
      ensures r.Success? ==> Advanced(events)
      ensures Scripted(env, events)
      ensures ChargedUnder(BudgetOf(env.reloaded), old(totals), charged, totals)
      ensures if !RecordTook(events) then totals == old(totals)
        else if HasAnswered(env, events) then Accounts(env, old(totals), totals) else AccountsNothing(old(totals), totals)
      ensures TallyOf(events).commits == 1 ==> job.refs == Some(env.loaded.refs) && !Replayable(old(row))
      ensures TallyOf(events).commits == 1 && TallyOf(events).runs > 0 ==>
        FreshOutput(env, old(row), old(totals)) && charged == Some(CallOf(env))
      ensures TallyOf(events).commits == 1 && TallyOf(events).runs == 0 ==> KeptOutput(old(row)) && TallyOf(events).allowed == 0
      ensures r == Success(Committed) ==> TallyOf(events).commits == 1
      ensures r == Success(Replayed) ==> TallyOf(events).commits == 0 && Replayable(old(row))
      ensures Calm(env) && job.refs == Some(env.loaded.refs) && Fetched(env, old(row), old(totals)) ==>
        TallyOf(events).outputs == 1 && TallyOf(events).commits == One(FreshOutput(env, old(row), old(totals)))
      ensures Calm(env) && job.refs == Some(env.loaded.refs) && FreshOutput(env, old(row), old(totals)) ==>
        r == Success(Committed) && TallyOf(events).runs == 1
      ensures Calm(env) && job.refs == Some(env.loaded.refs) && Called(env, old(row), old(totals)) ==>
        HasAnswered(env, events) && RecordTook(events)
      ensures Calm(env) && job.refs == Some(env.loaded.refs) && KeptOutput(old(row)) ==>
        r == Success(Committed) && TallyOf(events).runs == 0
      ensures row == RowAfter(old(row), events) && Obeys(env, events) && Kept(old(row), TallyOf(events), row)
      ensures StoresOk(events) && LeftOver(TallyOf(events)) ==> row.status == BlockedStage
      ensures old(row).status != Startable ==> TallyOf(events).runs == 0 && TallyOf(events).commits == 0 && charged == None
      ensures old(row).status == BlockedStage ==> r.Failure?
      ensures r == Success(Committed) ==> row == COMMITTED
      ensures StoresOk(events) ==> Ends(env, job, old(row), old(totals), HasAnswered(env, events), TallyOf(events), r, row.status)
    {
      hide TallyOf, Disciplined, LastFailure, StoresOk, Ends, Reports, CallOf, Called, Fetched, FreshOutput, KeptOutput, Replayable, Charge;
      hide MayCall, BudgetOf, Calm, Kept, Settled, LeftOver, Scripted, Advanced;
      EmptyHistory(env);
      ChargeAccounts(env, totals);
      events, start, begun, answered := [], row, totals.providerRequests, false;
      r, charged := Attend(env, job);
      RecordTookIff(events);
      StoresOkIff(events);
    }

    /** The references, the replay of a stage that has succeeded, and the part with the two `catch`es. */
    method Attend(env: Env, job: Job) returns (r: Result<Outcome, Thrown>, ghost charged: Option<Call>)
      requires Sound(env) && T() == Tally(0, 0, 0, 0, 0, 0, 0, 0, 0, 0, None) && !answered && Err().None? && events == []
      modifies this`events, this`row, this`totals, this`answered
      ensures Sound(env) && Settled(T())
      ensures if Err().Some? then r.Failure? && Reports(env, Err().value, r.error) else FullyRecorded(T())
      ensures ChargedUnder(BudgetOf(env.reloaded), old(totals), charged, totals)
      ensures charged.Some? ==> charged.value == if answered then CallOf(env) else UnknownCall()
      ensures T().commits == 1 ==> job.refs == Some(env.loaded.refs) && !Replayable(old(row))
      ensures T().commits == 1 && T().runs > 0 ==> FreshOutput(env, old(row), old(totals)) && charged == Some(CallOf(env))
      ensures T().commits == 1 && T().runs == 0 ==> KeptOutput(old(row)) && T().allowed == 0
      ensures r == Success(Committed) ==> T().commits == 1 && row == COMMITTED
      ensures r == Success(Replayed) ==> T().commits == 0 && Replayable(old(row))
      ensures r.Success? ==> Advanced(events)
      ensures Calm(env) && job.refs == Some(env.loaded.refs) && Fetched(env, old(row), old(totals)) ==>
        T().outputs == 1 && T().commits == One(FreshOutput(env, old(row), old(totals)))
      ensures Calm(env) && job.refs == Some(env.loaded.refs) && FreshOutput(env, old(row), old(totals)) ==> r == Success(Committed) && T().runs == 1
      ensures Calm(env) && job.refs == Some(env.loaded.refs) && Called(env, old(row), old(totals)) ==> answered && charged.Some?
      ensures Calm(env) && job.refs == Some(env.loaded.refs) && KeptOutput(old(row)) ==> r == Success(Committed) && T().runs == 0
      ensures Kept(old(row), T(), row) && (Err().None? && LeftOver(T()) ==> row.status == BlockedStage)
      ensures old(row).status != Startable ==> T().runs == 0 && T().commits == 0 && charged == None
      ensures old(row).status == BlockedStage ==> r.Failure?
      ensures Err().None? ==> Ends(env, job, old(row), old(totals), answered, T(), r, row.status)
    {
      hide TallyOf, Disciplined, LastFailure, AccountsFor, GuardedEnds, StatusFollows, CallOf, Called, Fetched, FreshOutput;
      hide Charge, MayCall, BudgetOf, Calm, Kept, Reusable;
      FreshNotReplayed(env, row, totals);
      KeptSame(row);
      if job.refs.None? {
        return Failure(JobError(InvalidData)), None;
      }
      var failed := AskPlain(env, LoadBundle);
      if failed.Some? {
        return Failure(failed.value), None;
      }
      if env.loaded.refs != job.refs.value {
        return Failure(JobError(SecurityViolation)), None;
      }
      if Replayable(row) {
        if !row.output.parses {
          return Failure(OtherError), None;
        }
        failed := AskPlain(env, AdvanceStage);
        return if failed.Some? then Failure(failed.value) else Success(Replayed), None;
      }
      r, charged := CatchBlocked(env, job);
    }

    /** The outer `catch`: a blocked stage is marked as such. */
    method CatchBlocked(env: Env, job: Job) returns (r: Result<Outcome, Thrown>, ghost charged: Option<Call>)
      requires Sound(env) && T() == Tally(0, 0, 0, 0, 0, 0, 0, 0, 0, 0, None) && !answered && Err().None?
      requires |events| == 1 && events[0].op == LoadBundle
      modifies this`events, this`row, this`totals, this`answered
      ensures charged.Some? ==> charged.value == if answered then CallOf(env) else UnknownCall()
      ensures Sound(env) && Settled(T())
      ensures if Err().Some? then r.Failure? && Reports(env, Err().value, r.error) else FullyRecorded(T())
      ensures ChargedUnder(BudgetOf(env.reloaded), old(totals), charged, totals)
      ensures T().commits == 1 && T().runs > 0 ==> FreshOutput(env, old(row), old(totals)) && charged == Some(CallOf(env))
      ensures T().commits == 1 && T().runs == 0 ==> KeptOutput(old(row)) && T().allowed == 0
      ensures r.Success? ==> r.value == Committed && T().commits == 1 && row == COMMITTED && Advanced(events)
      ensures Calm(env) && Fetched(env, old(row), old(totals)) ==> T().outputs == 1 && T().commits == One(FreshOutput(env, old(row), old(totals)))
      ensures Calm(env) && FreshOutput(env, old(row), old(totals)) ==> r == Success(Committed) && T().runs == 1
      ensures Calm(env) && Called(env, old(row), old(totals)) ==> answered && charged.Some?
      ensures Calm(env) && KeptOutput(old(row)) ==> r == Success(Committed) && T().runs == 0
      ensures Kept(old(row), T(), row) && (Err().None? && LeftOver(T()) ==> row.status == BlockedStage)
      ensures Err().None? ==>
        && GuardedEnds(env, old(row), old(totals), answered, T(), r) && StatusFollows(env, old(row), r, row.status)
      ensures old(row).status != Startable ==> T().runs == 0 && T().commits == 0 && charged == None && r.Failure?
    {
      hide TallyOf, Disciplined, LastFailure, CallOf, FreshOutput, ChargedUnder, BudgetOf, Calm, Called, Fetched, KeptOutput, GuardedEnds, Stuck, Settled, FullyRecorded, AccountsFor;
      var ending: Ending;
      ending, charged := Guarded(env, job);
      match ending
      case Return(result) =>
        r := result;
      case Throw(error) =>
        if error.StageBlocked? {
          var failed, took := Do(env, Block);
          r := Failure(if failed.Some? then failed.value else JobError(error.errorClass));
        } else {
          r := Failure(error);
        }
    }
  }

  ghost predicate Threw(f: Option<Event>, op: Op, error: Option<Thrown>)
  {
    f.Some? && f.value.op == op && f.value.thrown == error
  }

  /** The calls whose failures the inner `catch` gets to see. */
  predicate InCall(op: Op)
  {
    op == AssertFence || op == FindAttempt || op == StartExecution
  }

  /** The very error that the call threw. */
  ghost predicate Plain(f: Event, error: Thrown)
  {
    !InCall(f.op) && f.thrown == Some(error)
  }

  /** The error of a failed call, or the job error that the inner `catch` makes of it. */
  ghost predicate Explains(env: Env, f: Event, error: Thrown)
  {
    Plain(f, error) ||
    (InCall(f.op) && f.thrown.Some? && error.JobError? &&
     (env.abortAt.None? ==> error.errorClass == if f.thrown.value.JobError? then f.thrown.value.errorClass else RetryableNetwork))
  }

  /** The same, once the outer `catch` has made a job error of a blocked stage. */
  ghost predicate Reports(env: Env, f: Event, error: Thrown)
  {
    Explains(env, f, error) || exists e :: Explains(env, f, e) && e.StageBlocked? && error == JobError(e.errorClass)
  }

  /** The history ends with the stage advanced. */
  ghost predicate Advanced(events: seq<Event>)
  {
    events != [] && events[|events| - 1].op == AdvanceStage && events[|events| - 1].thrown.None?
  }

  ghost function Said(ending: Ending): Result<Outcome, Thrown>
  {
    match ending case Return(r) => r case Throw(error) => Failure(error)
  }

  /** A failure leaves the stage as it was, or blocked if it says that the budget is exhausted. */
  ghost predicate Leaves(error: Thrown, before: StageStatus, after: StageStatus)
  {
    error.JobError? && after == if error.errorClass == BudgetExhausted then BlockedStage else before
  }

  /** What a caller of the guarded part gets to see. */
  ghost function Surfaced(ending: Ending): Result<Outcome, Thrown>
  {
    match ending
    case Return(r) => r
    case Throw(error) => Failure(if error.StageBlocked? then JobError(error.errorClass) else error)
  }

  ghost predicate Follows(r: Result<Outcome, Thrown>, before: StageStatus, after: StageStatus)
  {
    match r case Success(_) => after == SucceededStage case Failure(error) => Leaves(error, before, after)
  }

  /** What becomes of an answer. */
  ghost function Verdict(env: Env, b: Budget, before: Usage): Result<Outcome, Thrown>
  {
    if env.answer.Declined? then Failure(JobError(ClassOf(env.answer.code, env.answer.classification, env.answer.retryable)))
    else if !env.answer.valid || env.duplicate then Failure(JobError(InvalidData))
    else if Allows(b, before, Postflight(env)) then Success(Committed)
    else Failure(JobError(BudgetExhausted))
  }

  /** What the execution of an answered call is finished with. */
  ghost function FinalStatus(env: Env): Status
  {
    if env.answer.Declined? then StatusOf(env.answer.code) else if env.answer.valid then Succeeded else Rejected
  }

  ghost predicate ProviderThrows(env: Env, error: Thrown)
  {
    exists k: nat :: env.fault(k, RunProvider).Throws? && env.fault(k, RunProvider).error == error
  }

  /** What becomes of a call without an answer: the provider threw, or the signal fired. */
  ghost predicate Unanswered(env: Env, t: Tally, error: Thrown)
  {
    && error.JobError?
    && if env.abortAt.None? || t.status == Some(Failed) then
         && t.status == Some(Failed)
         && ((error.errorClass == RetryableNetwork && exists e :: ProviderThrows(env, e) && !e.JobError?) || ProviderThrows(env, error))
       else
         && (env.abortReason.Some? ==> error.errorClass == env.abortReason.value)
         && t.status == if t.starts == 0 then None else Some(if error.errorClass == RetryableTimeout then TimedOut else CancelledCall)
  }

  /** How an attempt ends that comes to its preflight, once its store calls have returned. */
  ghost predicate CallEnds(env: Env, b: Budget, before: Usage, answered: bool, t: Tally, r: Result<Outcome, Thrown>)
  {
    if !Allows(b, before, Preflight(env)) then t.permits == 0 && r == Failure(JobError(BudgetExhausted))
    else if !env.permitGranted then t.starts == 0 && r == Failure(JobError(RetryableRateLimit))
    else if answered then r == Verdict(env, b, before) && t.status == Some(FinalStatus(env))
    else r.Failure? && Unanswered(env, t, r.error)
  }

  /** The stage cannot go on: its input or its budget cannot be used. */
  ghost predicate Stuck(env: Env, row: StageRow)
  {
    !Reusable(row) && if env.inputError.Some? then env.inputError.value.StageBlocked? else BudgetOf(env.reloaded).None?
  }

  /** The same from the start of the stage on. */
  ghost predicate GuardedEnds(env: Env, row: StageRow, before: Totals, answered: bool, t: Tally, r: Result<Outcome, Thrown>)
  {
    if Reusable(row) then r == if row.output.parses then Success(Committed) else Failure(OtherError)
    else if env.inputError.Some? then
      r == Failure(if env.inputError.value.StageBlocked? then JobError(env.inputError.value.errorClass) else env.inputError.value)
    else if BudgetOf(env.reloaded).None? then r == Failure(JobError(InvalidData))
    else CallEnds(env, BudgetOf(env.reloaded).value, UsageOf(before, env.reloaded), answered, t, r)
  }

  /** A success leaves the stage succeeded; it is blocked if it is stuck, or for an exhausted budget of the run. */
  ghost predicate StatusFollows(env: Env, row: StageRow, r: Result<Outcome, Thrown>, after: StageStatus)
  {
    after ==
      if r.Success? then SucceededStage
      else if Stuck(env, row) || (!Reusable(row) && env.inputError.None? && r == Failure(JobError(BudgetExhausted))) then BlockedStage
      else row.status
  }

  /** How every attempt ends whose store calls return. */
  ghost predicate Ends(env: Env, job: Job, row: StageRow, before: Totals, answered: bool, t: Tally, r: Result<Outcome, Thrown>, after: StageStatus)
  {
    if job.refs.None? then r == Failure(JobError(InvalidData)) && after == row.status
    else if env.loaded.refs != job.refs.value then r == Failure(JobError(SecurityViolation)) && after == row.status
    else if row.status == SucceededStage && row.output.Output? then r == (if row.output.parses then Success(Replayed) else Failure(OtherError)) && after == row.status
    else GuardedEnds(env, row, before, answered, t, r) && StatusFollows(env, row, r, after)
  }

  /**
    Without a classification of its own, a declined answer is retried exactly for these four codes. A
    rejected one is never retried, a timeout and a cancellation are recorded as such, and only a
    classification can say that the budget is exhausted.
   */
  lemma DeclinedRetriedIff(code: Code, classification: Option<ErrorClass>, retryable: bool)
    ensures var c := ClassOf(code, classification, retryable);
      && (classification.Some? ==> c == classification.value)
      && (c == BudgetExhausted ==> classification == Some(BudgetExhausted))
      && (classification.None? ==>
            && (IsRetryable(c) <==> code in {RateLimited, ServerError, Timeout, ProviderError})
            && (IsRetryable(c) ==> StatusOf(code) in {Failed, TimedOut}) && (StatusOf(code) == Rejected ==> !IsRetryable(c))
            && (c == RetryableTimeout <==> StatusOf(code) == TimedOut) && (c == Cancelled <==> StatusOf(code) == CancelledCall)
            && (c == RetryableRateLimit <==> code == RateLimited) && (c == RetryableServerError <==> code == ServerError)
            && (c == RetryableNetwork <==> code == ProviderError && retryable) && (c == Unclassified <==> code == ProviderError && !retryable)
            && (c == UserInput <==> code == NotConfigured) && (c == SecurityViolation <==> code == UnknownSourceId))
    ensures StatusOf(code) != Succeeded && (StatusOf(code) == TimedOut <==> code == Timeout) && (StatusOf(code) == CancelledCall <==> code == CancelledByCaller)
    ensures StatusOf(code) == Rejected <==> code in {InvalidResponse, UnknownSourceId, Code.Refused, ContentFiltered, Truncated, ResponseTooLarge}
  {
  }

  /** A disciplined history and what it says about the row, the requests of the run and the provider's answer. */
  ghost predicate AccountsFor(env: Env, start: StageRow, begun: nat, answered: bool, row: StageRow, requests: nat, events: seq<Event>)
  {
    && Disciplined(events) && row == RowAfter(start, events) && Obeys(env, events)
    && requests == begun + Recorded(events) && (answered <==> HasAnswered(env, events)) && Scripted(env, events)
  }

  /** One more event, in order. */
  lemma NextEvent(env: Env, start: StageRow, begun: nat, answered: bool, row: StageRow, requests: nat, events: seq<Event>, e: Event)
    requires AccountsFor(env, start, begun, answered, row, requests, events) && InOrder(TallyOf(events), e.op)
    requires MayFollow(LastFailure(events), e.op) && ObeysAt(env, |events|, e) && Led(env, events, e.op)
    ensures AccountsFor(env, start, begun, answered || IsAnswer(env, e, |events|), if e.took then Effect(row, e.op) else row,
                        requests + One(IsRecording(e)), events + [e])
    ensures TallyOf(events + [e]) == Count(TallyOf(events), e.op, e.thrown.None?)
    ensures LastFailure(events + [e]) == if Fails(e) then Some(e) else LastFailure(events)
  {
    hide InOrder, Count, Effect, IsAnswer, IsRecording, MayFollow, ObeysAt, Led, Fails;
    HistoryGrows(events, e);
    RowGrows(start, events, e);
    ObeysMore(env, events, e);
    AnswerGrows(env, events, e);
    RecordedGrows(events, e);
    ScriptedMore(env, events, e);
    hide Scripted, LastFailure, Disciplined, TallyOf, StoresOk, RowAfter, Recorded, HasAnswered, Obeys;
  }

  lemma FirstFailure(op: Op)
    ensures MayFollow(None, op)
  {
  }

  lemma LeavesStores(env: Env, row: StageRow, e: Event, i: nat)
    requires !ChangesStores(e.op) && e.op != RunProvider
    ensures Effect(row, e.op) == row && !IsRecording(e) && !IsAnswer(env, e, i)
  {
  }

  lemma NoAnswer(env: Env, e: Event, i: nat)
    requires !e.op.Record? && e.op != RunProvider
    ensures !IsRecording(e) && !IsAnswer(env, e, i)
  {
  }

  lemma CalmFault(env: Env, k: nat, op: Op)
    ensures Calm(env) && op != Block ==> env.fault(k, op) == Fine
  {
  }

  lemma RecordedGrows(events: seq<Event>, e: Event)
    ensures Recorded(events + [e]) == Recorded(events) + One(IsRecording(e))
  {
    assert (events + [e])[..|events + [e]| - 1] == events;
  }

  lemma AnswerGrows(env: Env, events: seq<Event>, e: Event)
    ensures HasAnswered(env, events + [e]) <==> HasAnswered(env, events) || IsAnswer(env, e, |events|)
  {
    hide IsAnswer;
    var longer := events + [e];
    assert forall i :: 0 <= i < |events| ==> longer[i] == events[i];
    assert longer[|events|] == e;
  }

  lemma ObeysMore(env: Env, events: seq<Event>, e: Event)
    requires Obeys(env, events) && ObeysAt(env, |events|, e)
    ensures Obeys(env, events + [e])
  {
    hide ObeysAt;
  }

  lemma ScriptedMore(env: Env, events: seq<Event>, e: Event)
    requires Scripted(env, events) && Led(env, events, e.op)
    ensures Scripted(env, events + [e])
  {
    hide Led;
    var longer := events + [e];
    forall s | 0 <= s < |longer|
      ensures Led(env, longer[..s], longer[s].op)
    {
      assert longer[..s] == events[..s];
      assert s < |events| ==> events[s] == longer[s];
    }
    assert events[..|events|] == events;
  }

  lemma EmptyHistory(env: Env)
    ensures TallyOf([]) == Tally(0, 0, 0, 0, 0, 0, 0, 0, 0, 0, None) && LastFailure([]).None?
    ensures forall row, begun :: AccountsFor(env, row, begun, false, row, begun, [])
  {
  }

  /**
    Any sequence of attempts on the stages of one run, one after the other under its frozen budget:
    each attempt works on the row of the stage it has loaded and finds there what earlier ones left,
    and all are charged to the one row of the run. The recorded requests stay within the cap, and
    whatever passes another limit is the work of one call.
   */
  method HandleAll(run: StageRun, b: Budget, rows: map<string, StageRow>, attempts: seq<(Env, Job)>)
    returns (rowsAfter: map<string, StageRow>, ghost history: seq<Totals>, ghost calls: seq<Option<Call>>, ghost tried: seq<seq<Event>>)
    requires forall i :: 0 <= i < |attempts| ==> BudgetOf(attempts[i].0.reloaded) == Some(b) && attempts[i].0.loaded.refs.stageRowId in rows
    requires WithinTotals(b, run.totals)
    modifies run
    ensures Ledger(b, history, calls) && |calls| == |attempts| && history[0] == old(run.totals) && history[|attempts|] == run.totals
    ensures run.totals.providerRequests <= b.maxProviderRequests
    ensures WithinTotals(b, run.totals) || exists k: nat ::
      k < |calls| && WithinTotals(b, history[k]) && calls[k].Some? && run.totals == Charge(history[k], calls[k].value)
    ensures |tried| == |attempts| && rowsAfter == RowsAfter(rows, attempts, tried) && rowsAfter.Keys == rows.Keys
    ensures forall i :: 0 <= i < |attempts| ==> Obeys(attempts[i].0, tried[i]) && Disciplined(tried[i])
    ensures forall id :: id in rows && rows[id].status != Startable ==> rowsAfter[id].status != Startable && Uncharged(id, attempts, calls)
    ensures forall id :: id in rows && (forall i :: 0 <= i < |attempts| ==> attempts[i].0.loaded.refs.stageRowId != id) ==> rowsAfter[id] == rows[id]
  {
    hide BudgetOf, Charge, MayCall, WithinTotals, Disciplined, TallyOf, StoresOk, Fetched, FreshOutput, Calm, RowAfter, Obeys;
    hide RowsAfter, Kept, Ends, Reports, Advanced, Scripted, LastFailure, Called, Accounts, AccountsNothing, RecordTook, HasAnswered, KeptOutput, Replayable, FullyRecorded, Settled, LeftOver, CallOf;
    rowsAfter, history, calls, tried := rows, [run.totals], [], [];
    NoRows(rows, attempts);
    assert Ledger(b, history, calls);
    hide Ledger;
    for i := 0 to |attempts|
      invariant |calls| == i && |history| == i + 1 && Ledger(b, history, calls) && history[0] == old(run.totals) && history[i] == run.totals
      invariant |tried| == i && rowsAfter == RowsAfter(rows, attempts, tried) && rowsAfter.Keys == rows.Keys
      invariant forall j :: 0 <= j < i ==> Obeys(attempts[j].0, tried[j]) && Disciplined(tried[j])
      invariant forall id :: id in rows && rows[id].status != Startable ==> rowsAfter[id].status != Startable && Uncharged(id, attempts, calls)
    {
      var id := attempts[i].0.loaded.refs.stageRowId;
      run.row := rowsAfter[id];
      var r, charged := run.Handle(attempts[i].0, attempts[i].1);
      assert Attempt(b, history[i], charged, run.totals);
      LedgerNext(b, history, calls, charged, run.totals);
      history, calls := history + [run.totals], calls + [charged];
      if rowsAfter[id].status != Startable {
        KeptBlocked(rowsAfter[id], TallyOf(run.events), run.row);
      }
      RowsNext(rows, attempts, tried, run.events);
      rowsAfter := rowsAfter[id := run.row];
      tried := tried + [run.events];
    }
    forall id | id in rows && forall i :: 0 <= i < |attempts| ==> attempts[i].0.loaded.refs.stageRowId != id
      ensures rowsAfter[id] == rows[id]
    {
      RowsElsewhere(rows, attempts, tried, id);
    }
    OvershootIsOneCall(b, history, calls, |attempts|);
    assert history[0].providerRequests <= b.maxProviderRequests by {
      WithinRequests(b, history[0]);
    }
    RequestsWithinCap(b, history, calls, |attempts|);
  }

  /** The rows after the attempts: each changes the row of its own stage as its history says, on what earlier ones left. */
  ghost function RowsAfter(rows: map<string, StageRow>, attempts: seq<(Env, Job)>, tried: seq<seq<Event>>): (r: map<string, StageRow>)
    requires |tried| <= |attempts|
    requires forall i :: 0 <= i < |attempts| ==> attempts[i].0.loaded.refs.stageRowId in rows
    ensures r.Keys == rows.Keys
  {
    if tried == [] then rows
    else
      var n := |tried| - 1;
      var before, id := RowsAfter(rows, attempts, tried[..n]), attempts[n].0.loaded.refs.stageRowId;
      before[id := RowAfter(before[id], tried[n])]
  }

  lemma {:induction false} RowsElsewhere(rows: map<string, StageRow>, attempts: seq<(Env, Job)>, tried: seq<seq<Event>>, id: string)
    requires |tried| <= |attempts| && id in rows
    requires forall i :: 0 <= i < |attempts| ==> attempts[i].0.loaded.refs.stageRowId in rows && attempts[i].0.loaded.refs.stageRowId != id
    ensures RowsAfter(rows, attempts, tried)[id] == rows[id]
  {
    if tried != [] {
      RowsElsewhere(rows, attempts, tried[..|tried| - 1], id);
    }
  }

  lemma NoRows(rows: map<string, StageRow>, attempts: seq<(Env, Job)>)
    requires forall i :: 0 <= i < |attempts| ==> attempts[i].0.loaded.refs.stageRowId in rows
    ensures RowsAfter(rows, attempts, []) == rows
  {
  }

  lemma KeptBlocked(before: StageRow, t: Tally, after: StageRow)
    requires Kept(before, t, after) && t.commits == 0
    ensures before.status != Startable ==> after.status != Startable
  {
  }

  lemma RowsNext(rows: map<string, StageRow>, attempts: seq<(Env, Job)>, tried: seq<seq<Event>>, events: seq<Event>)
    requires |tried| < |attempts|
    requires forall i :: 0 <= i < |attempts| ==> attempts[i].0.loaded.refs.stageRowId in rows
    ensures var before, id := RowsAfter(rows, attempts, tried), attempts[|tried|].0.loaded.refs.stageRowId;
      RowsAfter(rows, attempts, tried + [events]) == before[id := RowAfter(before[id], events)]
  {
    assert (tried + [events])[..|tried|] == tried;
  }

  /** No attempt on the stage has been charged. */
  ghost predicate Uncharged(id: string, attempts: seq<(Env, Job)>, calls: seq<Option<Call>>)
    requires |calls| <= |attempts|
  {
    forall i :: 0 <= i < |calls| && attempts[i].0.loaded.refs.stageRowId == id ==> calls[i] == None
  }

  lemma LedgerNext(b: Budget, history: seq<Totals>, calls: seq<Option<Call>>, call: Option<Call>, t: Totals)
    requires Ledger(b, history, calls) && Attempt(b, history[|calls|], call, t)
    ensures Ledger(b, history + [t], calls + [call])
  {
    hide Attempt;
    var longer, all := history + [t], calls + [call];
    forall i | 0 <= i < |all|
      ensures Attempt(b, longer[i], all[i], longer[i + 1])
    {
      if i < |calls| {
        assert Attempt(b, history[i], calls[i], history[i + 1]);
      }
    }
  }

  lemma WithinRequests(b: Budget, t: Totals)
    requires WithinTotals(b, t)
    ensures t.providerRequests <= b.maxProviderRequests
  {
  }

  predicate Replayable(row: StageRow)
  {
    row.status == SucceededStage && row.output.Output?
  }

  predicate Reusable(row: StageRow)
  {
    row.output.Output? && row.output.hashed
  }

  /** An output recorded by an earlier attempt that this attempt will commit. */
  predicate KeptOutput(row: StageRow)
  {
    row.status == Startable && row.output.Output? && row.output.hashed && row.output.parses
  }

  /** The attempt recorded an output and did not try to commit it: its postflight was refused. */
  ghost predicate LeftOver(t: Tally)
  {
    t.outputs == 1 && t.commits == 0
  }

  /** What an attempt may do to the row: record an output, block the stage, or commit. */
  ghost predicate Kept(before: StageRow, t: Tally, after: StageRow)
  {
    && (after.output == before.output || after.output == RECORDED) && (t.outputs == 1 ==> after.output == RECORDED)
    && (after.status == before.status || after.status == BlockedStage || (after.status == SucceededStage && t.commits == 1))
  }

  lemma KeptSame(row: StageRow)
    ensures Kept(row, Tally(0, 0, 0, 0, 0, 0, 0, 0, 0, 0, None), row)
  {
  }

  /** The row carries an output that the attempt did not try to commit: its postflight was refused or never made. */
  ghost predicate Uncommitted(t: Tally, row: StageRow)
  {
    t.commits == 0 && Reusable(row) && row.output.parses
  }

  /** The provider gave a usable output, and its postflight is refused. */
  ghost predicate Refused(env: Env, row: StageRow, before: Totals)
  {
    Fetched(env, row, before) && !FreshOutput(env, row, before)
  }

  /**
    Two attempts on a stage. If the first left an output on the row without trying to commit it, a
    second one that meets no fault commits it without a call and without a postflight, exactly when
    no call that blocks the stage took effect in the first. Such a call took effect whenever the first
    recorded the output itself and all its store calls returned. Where only that call may fail, a
    refused postflight does leave its output behind.
   */
  method Retry(run: StageRun, first: Env, second: Env, job: Job)
    returns (r: Result<Outcome, Thrown>, again: Result<Outcome, Thrown>, ghost between: StageRow, ghost calls: seq<Event>)
    requires run.row.status == Startable && job.refs == Some(second.loaded.refs) && Calm(second)
    modifies run
    ensures Obeys(first, calls) && between == RowAfter(old(run.row), calls)
    ensures Uncommitted(TallyOf(calls), between) ==> (again == Success(Committed) <==> !BlockTook(calls))
    ensures Uncommitted(TallyOf(calls), between) && again == Success(Committed) ==>
      TallyOf(run.events).runs == 0 && TallyOf(run.events).allowed == 0 && TallyOf(run.events).commits == 1
    ensures Uncommitted(TallyOf(calls), between) && BlockTook(calls) ==> between.status == BlockedStage && TallyOf(run.events).commits == 0
    ensures LeftOver(TallyOf(calls)) ==> Uncommitted(TallyOf(calls), between) && (StoresOk(calls) ==> BlockTook(calls))
    ensures Calm(first) && job.refs == Some(first.loaded.refs) && Refused(first, old(run.row), old(run.totals)) ==> LeftOver(TallyOf(calls))
  {
    hide Disciplined, TallyOf, StoresOk, Fetched, FreshOutput, Calm, ChargedUnder, BudgetOf, CallOf, Obeys, RowAfter, BlockTook;
    ghost var charged: Option<Call>;
    ghost var before := run.row;
    r, charged := run.Handle(first, job);
    between, calls := run.row, run.events;
    if TallyOf(calls).commits == 0 {
      BlockedIff(before, calls);
    }
    again, charged := run.Handle(second, job);
  }

  /**
    An attempt without faults, except that blocking the stage throws and has no effect; the answer has
    one output token more than the budget allows.
   */
  function Overrun(b: Budget, refs: Refs): (env: Env)
  {
    var bundle := Bundle(refs, 0, 0, 0, 0, StoredBudget(b, Some(b.maxEstimatedCostUsd), None));
    Env((k, op) => if op == Block then Throws(OtherError, false) else Fine, None, None, bundle, bundle, None, false,
        "provider", "model", [Price("provider", "model", 0.0, 0.0, Known)], true,
        Completed(Some(Reported(Some(0), Some(b.maxOutputTokens + 1))), 0, true), false)
  }

  lemma OverrunRefused(b: Budget, refs: Refs, row: StageRow, before: Totals)
    requires row.status == Startable && !Reusable(row) && b.maxEstimatedCostUsd.Finite?
    requires MayCall(b, before) && before.searchRequests <= b.maxSearchRequests
    ensures Calm(Overrun(b, refs)) && Refused(Overrun(b, refs), row, before)
  {
    var env := Overrun(b, refs);
    var usage := UsageOf(before, env.reloaded);
    assert BudgetOf(env.reloaded) == Some(b);
    assert Allows(b, usage, Preflight(env));
    assert Project(usage, Postflight(env)).outputTokens > b.maxOutputTokens;
  }

  /**
    Under every budget with a finite cost limit that allows one more call, some attempt has its
    postflight refused and some retry commits the refused output.
   */
  method RefusedYetCommitted(run: StageRun, b: Budget, job: Job) returns (again: Result<Outcome, Thrown>, ghost calls: seq<Event>)
    requires run.row.status == Startable && !Reusable(run.row) && b.maxEstimatedCostUsd.Finite? && job.refs.Some?
    requires MayCall(b, run.totals) && run.totals.searchRequests <= b.maxSearchRequests
    modifies run
    ensures Refused(Overrun(b, job.refs.value), old(run.row), old(run.totals)) && Obeys(Overrun(b, job.refs.value), calls)
    ensures LeftOver(TallyOf(calls)) && again == Success(Committed)
    ensures TallyOf(run.events).runs == 0 && TallyOf(run.events).allowed == 0 && TallyOf(run.events).commits == 1
  {
    var env := Overrun(b, job.refs.value);
    OverrunRefused(b, job.refs.value, run.row, run.totals);
    hide Refused, Calm, TallyOf, Fetched;
    var r: Result<Outcome, Thrown>;
    ghost var between: StageRow;
    r, again, between, calls := Retry(run, env, env, job);
    assert !BlockTook(calls);
  }

  /** At most one call was charged, and only after the preflight allowed it. */
  ghost predicate ChargedUnder(b: Option<Budget>, before: Totals, charged: Option<Call>, after: Totals)
  {
    if b.Some? then Attempt(b.value, before, charged, after) else charged == None && after == before
  }

  /** A token count as reported; a missing one counts as 0. */
  ghost predicate Grows(before: nat, after: nat, count: Option<nat>)
  {
    match count case Some(n) => after == before + n case None => after == before
  }

  /** The totals with one request more, and the usage that the answer reports. */
  ghost predicate Accounts(env: Env, before: Totals, after: Totals)
  {
    var usage, price := env.answer.usage, FindPrice(env.prices, env.provider, env.model);
    && after == before.(providerRequests := before.providerRequests + 1, inputTokens := after.inputTokens,
                        outputTokens := after.outputTokens, estimatedCostUsd := after.estimatedCostUsd, costStatus := after.costStatus)
    && Grows(before.inputTokens, after.inputTokens, if usage.Some? then usage.value.inputTokens else None)
    && Grows(before.outputTokens, after.outputTokens, if usage.Some? then usage.value.outputTokens else None)
    && if usage.Some? && usage.value.inputTokens.Some? && usage.value.outputTokens.Some? && price.Some? then
         (after.estimatedCostUsd - before.estimatedCostUsd) * 1000000.0 ==
         usage.value.inputTokens.value as real * price.value.inputUsdPerMillion + usage.value.outputTokens.value as real * price.value.outputUsdPerMillion
       else after.estimatedCostUsd == before.estimatedCostUsd
  }

  /** What the preflight asks, said of the run and its budget: room for one more request, no limit passed, a known price. */
  lemma PreflightIff(env: Env, b: Budget, t: Totals)
    ensures Allows(b, UsageOf(t, env.reloaded), Preflight(env)) <==>
      && t.providerRequests + 1 <= b.maxProviderRequests && t.searchRequests <= b.maxSearchRequests
      && t.inputTokens <= b.maxInputTokens && t.outputTokens <= b.maxOutputTokens
      && env.reloaded.elapsedMs <= b.maxElapsedMs && env.reloaded.attemptCount <= b.maxStageAttempts
      && env.reloaded.sources <= b.maxSources && env.reloaded.documentChunks <= b.maxDocumentChunks
      && (b.maxEstimatedCostUsd.Finite? ==>
            && t.estimatedCostUsd <= b.maxEstimatedCostUsd.limit
            && var price := FindPrice(env.prices, env.provider, env.model); price.Some?)
  {
  }

  /** What the postflight asks: that the totals would stay within the budget with the reported usage, whose cost is known. */
  lemma PostflightIff(env: Env, b: Budget, before: Totals, after: Totals)
    requires Accounts(env, before, after)
    ensures Allows(b, UsageOf(before, env.reloaded), Postflight(env)) <==>
      && after.providerRequests <= b.maxProviderRequests && before.searchRequests <= b.maxSearchRequests
      && after.inputTokens <= b.maxInputTokens && after.outputTokens <= b.maxOutputTokens
      && env.reloaded.elapsedMs + (if env.answer.Completed? then env.answer.durationMs else 0) <= b.maxElapsedMs
      && env.reloaded.attemptCount <= b.maxStageAttempts
      && env.reloaded.sources <= b.maxSources && env.reloaded.documentChunks <= b.maxDocumentChunks
      && (b.maxEstimatedCostUsd.Finite? ==> after.estimatedCostUsd <= b.maxEstimatedCostUsd.limit && CostKnown(env))
  {
    ChargeAccounts(env, before);
    hide FindPrice, MicroUsd;
  }

  /** The model has a price, and both counts were reported, or the provider is the mock and reported nothing. */
  ghost predicate CostKnown(env: Env)
  {
    && FindPrice(env.prices, env.provider, env.model).Some?
    && if env.answer.usage.Some? then env.answer.usage.value.inputTokens.Some? && env.answer.usage.value.outputTokens.Some? else env.mock
  }

  /** The totals with one request more, whose usage and cost are not known. */
  ghost predicate AccountsNothing(before: Totals, after: Totals)
  {
    after == before.(providerRequests := before.providerRequests + 1, costStatus := after.costStatus)
  }

  lemma ChargeAccounts(env: Env, before: Totals)
    ensures Accounts(env, before, Charge(before, CallOf(env)))
    ensures AccountsNothing(before, Charge(before, UnknownCall()))
  {
    hide FindPrice;
  }

  /** When the provider is called. */
  ghost predicate Called(env: Env, row: StageRow, before: Totals)
  {
    && row.status == Startable && !Reusable(row) && env.inputError.None? && BudgetOf(env.reloaded).Some? && env.permitGranted
    && Allows(BudgetOf(env.reloaded).value, UsageOf(before, env.reloaded), Preflight(env))
  }

  /** When it is called and gives an output that can be used. */
  ghost predicate Fetched(env: Env, row: StageRow, before: Totals)
  {
    Called(env, row, before) && Answered(env)
  }

  /** When such an output may be committed. */
  ghost predicate FreshOutput(env: Env, row: StageRow, before: Totals)
  {
    Fetched(env, row, before) && Accepted(env, BudgetOf(env.reloaded).value, UsageOf(before, env.reloaded))
  }

  lemma FreshNotReplayed(env: Env, row: StageRow, before: Totals)
    ensures Called(env, row, before) ==> !Replayable(row)
    ensures Fetched(env, row, before) ==> Called(env, row, before)
    ensures FreshOutput(env, row, before) ==> Fetched(env, row, before)
  {
    hide BudgetOf, Allows, Answered;
  }

  /** `abortedError`. */
  function AbortClass(reason: Option<ErrorClass>, fallback: Thrown): ErrorClass
  {
    if reason.Some? then reason.value else if fallback.JobError? then fallback.errorClass else Cancelled
  }

  /** The permit is back, and nothing happened twice or out of order. */
  ghost predicate Settled(t: Tally)
  {
    t.releases == t.permits <= 1 && t.records <= t.finishes <= t.starts <= t.permits && t.commits <= 1
  }

  /** Every started execution has its one finish and its one record. */
  ghost predicate FullyRecorded(t: Tally)
  {
    t.finishes == t.starts && t.records == t.starts
  }

  /** The signal never fires, and no call throws but perhaps the one that blocks the stage. */
  ghost predicate Calm(env: Env)
  {
    env.abortAt == None && forall k, op :: op != Block ==> env.fault(k, op) == Fine
  }

  /** The answer is a success with valid references and not a duplicate. */
  ghost predicate Answered(env: Env)
  {
    env.answer.Completed? && env.answer.valid && !env.duplicate
  }

  /** Its usage is within the budget, too. */
  ghost predicate Accepted(env: Env, b: Budget, before: Usage)
  {
    Answered(env) && Allows(b, before, Postflight(env))
  }
}
