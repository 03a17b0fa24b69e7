/**
  The durable worker's scheduler: polls claim jobs while executions finish at arbitrary points, and
  `stop()` drains. Every event below is what happens between two `await`s of the source.
 */
module DurableWorker {
  import opened Prelude
  import opened Text

  datatype Job = Job(id: string, jobType: string)

  /** `limits` holds the configured per-type limits, already cut to `concurrency`. */
  datatype Config = Config(concurrency: nat, limits: map<string, nat>, handlers: seq<string>)

  ghost predicate ValidConfig(c: Config)
  {
    && 1 <= c.concurrency <= 100
    && (forall t :: t in c.limits ==> 1 <= c.limits[t] <= c.concurrency && t in c.handlers)
    && (forall i, j :: 0 <= i < j < |c.handlers| ==> c.handlers[i] != c.handlers[j])
  }

  function Limit(c: Config, jobType: string): (n: nat)
  {
    if jobType in c.limits then c.limits[jobType] else c.concurrency
  }

  /** What an open `pollOnce` is waiting for. */
  datatype Poll =
    | Recovering
    | Claiming(capacity: nat, claimed: nat, eligible: set<string>)
    | Releasing(job: Job)

  datatype Phase =
    | Running
    | AwaitPolls
    | Grace(initial: set<string>)
    | Final(waiting: set<string>)
    | Stopped

  /**
    `held` are the jobs this worker has claimed and neither finished nor released; `lost` are the
    jobs whose lease release itself failed.
   */
  datatype State = State(
    active: map<string, Job>,
    polls: map<nat, Poll>,
    stopping: bool,
    phase: Phase,
    held: set<string>,
    lost: set<string>)

  datatype Event =
    | PollStart(poll: nat)
    | Recovered(poll: nat)
    | Claimed(poll: nat, job: Option<Job>)
    | LeaseReleased(poll: nat)
    | PollFails(poll: nat)
    | ExecutionSettled(jobId: string)
    | StopCalled
    | PollsSettled
    | GraceOver
    | DrainSettled

  function Initial(): (s: State)
  {
    State(map[], map[], false, Running, {}, {})
  }

  ghost function OfType(active: map<string, Job>, jobType: string): (ids: set<string>)
  {
    set id | id in active && active[id].jobType == jobType
  }

  ghost function Count(active: map<string, Job>, jobType: string): (n: nat)
  {
    |OfType(active, jobType)|
  }

  ghost function Eligible(c: Config, active: map<string, Job>): (types: set<string>)
  {
    set t | t in c.handlers && Count(active, t) < Limit(c, t)
  }

  /** The head of the claim loop: it asks for one more job, or the poll ends. */
  ghost function NextClaim(c: Config, s: State, poll: nat, capacity: nat, claimed: nat): (sNext: State)
  {
    if claimed < capacity && Eligible(c, s.active) != {}
    then s.(polls := s.polls[poll := Claiming(capacity, claimed, Eligible(c, s.active))])
    else s.(polls := s.polls - {poll})
  }

  /** What the environment may deliver: `claimJobs` returns only requested types and no job already held. */
  ghost predicate Enabled(s: State, e: Event)
  {
    match e
    case PollStart(p) => p !in s.polls
    case Recovered(p) => p in s.polls && s.polls[p].Recovering?
    case Claimed(p, job) =>
      p in s.polls && s.polls[p].Claiming? &&
      (job.Some? ==> job.value.jobType in s.polls[p].eligible && job.value.id !in s.held && job.value.id !in s.lost)
    case LeaseReleased(p) => p in s.polls && s.polls[p].Releasing?
    case PollFails(p) => p in s.polls
    case ExecutionSettled(id) => id in s.active
    case StopCalled => true
    case PollsSettled => s.phase.AwaitPolls? && s.polls == map[]
    case GraceOver => s.phase.Grace?
    case DrainSettled => s.phase.Final? && s.phase.waiting !! s.active.Keys
  }

  ghost function Step(c: Config, s: State, e: Event): (sNext: State)
    requires Enabled(s, e)
  {
    match e
    case PollStart(p) => if s.stopping then s else s.(polls := s.polls[p := Recovering])
    case Recovered(p) =>
      if s.stopping || c.handlers == [] || c.concurrency <= |s.active| then s.(polls := s.polls - {p})
      else NextClaim(c, s, p, c.concurrency - |s.active|, 0)
    case Claimed(p, job) =>
      if job.None? then s.(polls := s.polls - {p})
      else if s.stopping then s.(polls := s.polls[p := Releasing(job.value)], held := s.held + {job.value.id})
      else
        NextClaim(c, s.(active := s.active[job.value.id := job.value], held := s.held + {job.value.id}),
                  p, s.polls[p].capacity, s.polls[p].claimed + 1)
    case LeaseReleased(p) => s.(polls := s.polls - {p}, held := s.held - {s.polls[p].job.id})
    case PollFails(p) =>
      if s.polls[p].Releasing?
      then s.(polls := s.polls - {p}, held := s.held - {s.polls[p].job.id}, lost := s.lost + {s.polls[p].job.id})
      else s.(polls := s.polls - {p})
    case ExecutionSettled(id) => s.(active := s.active - {id}, held := s.held - {id})
    case StopCalled => if s.stopping then s else s.(stopping := true, phase := AwaitPolls)
    case PollsSettled => s.(phase := if s.active == map[] then Stopped else Grace(s.active.Keys))
    case GraceOver => s.(phase := Final(s.active.Keys))
    case DrainSettled => s.(phase := Stopped)
  }

  /** A finite run: every event is enabled when it happens. */
  ghost predicate IsRun(c: Config, s: State, events: seq<Event>)
    decreases |events|
  {
    events != [] ==> Enabled(s, events[0]) && IsRun(c, Step(c, s, events[0]), events[1..])
  }

  ghost function Run(c: Config, s: State, events: seq<Event>): (sNext: State)
    requires IsRun(c, s, events)
    decreases |events|
  {
    if events == [] then s else Run(c, Step(c, s, events[0]), events[1..])
  }

  /** `run()` awaits each `runOnce`: no poll starts while another is open. */
  ghost predicate Serial(c: Config, s: State, events: seq<Event>)
    requires IsRun(c, s, events)
    decreases |events|
  {
    events != [] ==>
      (events[0].PollStart? ==> s.polls == map[]) && Serial(c, Step(c, s, events[0]), events[1..])
  }

  // ---------------------------------------------------------------- counting

  lemma CountAdd(active: map<string, Job>, job: Job, t: string)
    requires job.id !in active
    ensures Count(active[job.id := job], t) == Count(active, t) + (if job.jobType == t then 1 else 0)
    ensures |active[job.id := job]| == |active| + 1
  {
    var after := active[job.id := job];
    if job.jobType == t {
      assert OfType(after, t) == OfType(active, t) + {job.id};
    } else {
      assert OfType(after, t) == OfType(active, t);
    }
  }

  lemma SubsetCount(a: set<string>, b: set<string>)
    requires a <= b
    ensures |a| <= |b|
  {
    if a != {} {
      var x :| x in a;
      SubsetCount(a - {x}, b - {x});
    }
  }

  lemma CountRemove(active: map<string, Job>, id: string, t: string)
    ensures Count(active - {id}, t) <= Count(active, t)
    ensures |active - {id}| <= |active|
  {
    SubsetCount(OfType(active - {id}, t), OfType(active, t));
    SubsetCount((active - {id}).Keys, active.Keys);
  }

  // ---------------------------------------------------------------- leases

  ghost predicate ReleasingJob(s: State, p: nat, id: string)
  {
    p in s.polls && s.polls[p].Releasing? && s.polls[p].job.id == id
  }

  /** A held job is active, or an open poll is handing its lease back; never both, never twice. */
  ghost predicate LeasesOk(s: State)
  {
    && s.active.Keys <= s.held
    && (forall p, id :: ReleasingJob(s, p, id) ==> id in s.held && id !in s.active)
    && (forall p, q, id :: ReleasingJob(s, p, id) && ReleasingJob(s, q, id) ==> p == q)
    && (forall id :: id in s.held && id !in s.active ==> exists p :: ReleasingJob(s, p, id))
  }

  lemma ClaimLeases(c: Config, s: State, p: nat, job: Job)
    requires LeasesOk(s) && Enabled(s, Claimed(p, Some(job)))
    ensures LeasesOk(Step(c, s, Claimed(p, Some(job))))
  {
    var sNext := Step(c, s, Claimed(p, Some(job)));
    hide Eligible;
    if s.stopping {
      assert forall q, id :: q != p ==> (ReleasingJob(sNext, q, id) <==> ReleasingJob(s, q, id));
      assert ReleasingJob(sNext, p, job.id);
    } else {
      assert forall q, id :: ReleasingJob(sNext, q, id) <==> ReleasingJob(s, q, id);
    }
  }

  lemma ReleaseLeases(s: State, sNext: State, p: nat)
    requires LeasesOk(s) && p in s.polls && s.polls[p].Releasing?
    requires sNext.active == s.active && sNext.polls == s.polls - {p} && sNext.held == s.held - {s.polls[p].job.id}
    ensures LeasesOk(sNext)
  {
    assert ReleasingJob(s, p, s.polls[p].job.id);
    assert forall q, id :: q != p ==> (ReleasingJob(sNext, q, id) <==> ReleasingJob(s, q, id));
  }

  lemma SettledLeases(s: State, sNext: State, gone: set<string>)
    requires LeasesOk(s) && gone <= s.active.Keys
    requires sNext.held == s.held - gone && sNext.active == s.active - gone
    requires forall q :: q in s.polls && s.polls[q].Releasing? ==> q in sNext.polls && sNext.polls[q] == s.polls[q]
    requires forall q :: q in sNext.polls && sNext.polls[q].Releasing? ==> q in s.polls && sNext.polls[q] == s.polls[q]
    ensures LeasesOk(sNext)
  {
    assert forall q, id :: ReleasingJob(sNext, q, id) <==> ReleasingJob(s, q, id);
  }

  lemma LeasesStep(c: Config, s: State, e: Event)
    requires LeasesOk(s) && Enabled(s, e)
    ensures LeasesOk(Step(c, s, e))
  {
    hide LeasesOk, ReleasingJob, Eligible;
    if e.Claimed? && e.job.Some? {
      ClaimLeases(c, s, e.poll, e.job.value);
    } else if (e.LeaseReleased? || e.PollFails?) && s.polls[e.poll].Releasing? {
      ReleaseLeases(s, Step(c, s, e), e.poll);
    } else {
      OtherEvents(c, s, e);
      SettledLeases(s, Step(c, s, e), if e.ExecutionSettled? then {e.jobId} else {});
    }
  }

  /** Every other event leaves the leases being released alone and at most ends one execution. */
  lemma OtherEvents(c: Config, s: State, e: Event)
    requires Enabled(s, e) && !(e.Claimed? && e.job.Some?)
    requires (e.LeaseReleased? || e.PollFails?) ==> !s.polls[e.poll].Releasing?
    ensures var sNext, gone := Step(c, s, e), if e.ExecutionSettled? then {e.jobId} else {};
      && sNext.held == s.held - gone && sNext.active == s.active - gone
      && (forall q :: q in s.polls && s.polls[q].Releasing? ==> q in sNext.polls && sNext.polls[q] == s.polls[q])
      && (forall q :: q in sNext.polls && sNext.polls[q].Releasing? ==> q in s.polls && sNext.polls[q] == s.polls[q])
  {
    assert s.held - {} == s.held && s.active - {} == s.active;
    hide Eligible, Count;
    forall q: nat
      ensures q in s.polls && s.polls[q].Releasing? ==> q in Step(c, s, e).polls && Step(c, s, e).polls[q] == s.polls[q]
      ensures q in Step(c, s, e).polls && Step(c, s, e).polls[q].Releasing? ==> q in s.polls && Step(c, s, e).polls[q] == s.polls[q]
    {
      OtherPoll(c, s, e, q);
    }
  }

  lemma OtherPoll(c: Config, s: State, e: Event, q: nat)
    requires Enabled(s, e) && !(e.Claimed? && e.job.Some?)
    requires (e.LeaseReleased? || e.PollFails?) ==> !s.polls[e.poll].Releasing?
    ensures var polls := Step(c, s, e).polls;
      && (q in s.polls && s.polls[q].Releasing? ==> q in polls && polls[q] == s.polls[q])
      && (q in polls && polls[q].Releasing? ==> q in s.polls && polls[q] == s.polls[q])
  {
    hide Eligible, Count, NextClaim;
    if e.Recovered? && |s.active| < c.concurrency {
      NextClaimPolls(c, s, e.poll, c.concurrency - |s.active|, q);
    }
  }

  lemma NextClaimPolls(c: Config, s: State, poll: nat, capacity: nat, q: nat)
    requires poll in s.polls && !s.polls[poll].Releasing?
    ensures var polls := NextClaim(c, s, poll, capacity, 0).polls;
      && (q in s.polls && s.polls[q].Releasing? ==> q in polls && polls[q] == s.polls[q])
      && (q in polls && polls[q].Releasing? ==> q in s.polls && polls[q] == s.polls[q])
  {
    hide Eligible;
  }

  // ---------------------------------------------------------------- capacity

  /** No more jobs than `concurrency`, and of each type with a configured limit no more than that. */
  ghost predicate WithinLimits(c: Config, s: State)
  {
    |s.active| <= c.concurrency && forall t :: t in c.limits ==> Count(s.active, t) <= c.limits[t]
  }

  lemma WithinLimitsIff(c: Config, s: State)
    ensures WithinLimits(c, s) <==> |s.active| <= c.concurrency && forall t :: Count(s.active, t) <= Limit(c, t)
  {
    forall t ensures Count(s.active, t) <= |s.active| {
      SubsetCount(OfType(s.active, t), s.active.Keys);
    }
    hide Count;
    if WithinLimits(c, s) {
      forall t ensures Count(s.active, t) <= Limit(c, t) {}
    } else if |s.active| <= c.concurrency {
      var t :| t in c.limits && Count(s.active, t) > c.limits[t];
      assert Count(s.active, t) > Limit(c, t);
    }
  }

  /** The slots an open claim loop may still fill are free, and each type it asked for has room. */
  ghost predicate PollFits(c: Config, s: State, p: Poll)
  {
    p.Claiming? ==>
      && p.claimed < p.capacity && |s.active| + (p.capacity - p.claimed) <= c.concurrency
      && forall t :: t in p.eligible ==> Count(s.active, t) < Limit(c, t)
  }

  ghost predicate Capacity(c: Config, s: State)
  {
    && WithinLimits(c, s)
    && (forall p, q :: p in s.polls && q in s.polls ==> p == q)
    && (forall p :: p in s.polls ==> PollFits(c, s, s.polls[p]))
    && s.active.Keys <= s.held
  }

  lemma NextClaimKeeps(c: Config, s: State, poll: nat, capacity: nat, claimed: nat)
    requires WithinLimits(c, s) && claimed <= capacity && |s.active| + (capacity - claimed) <= c.concurrency
    requires s.active.Keys <= s.held && forall p :: p in s.polls ==> p == poll
    ensures Capacity(c, NextClaim(c, s, poll, capacity, claimed))
  {
  }

  lemma ClaimKeeps(c: Config, s: State, p: nat, job: Job)
    requires Capacity(c, s) && Enabled(s, Claimed(p, Some(job))) && !s.stopping
    ensures Capacity(c, Step(c, s, Claimed(p, Some(job))))
  {
    var poll := s.polls[p];
    assert PollFits(c, s, poll);
    WithinLimitsIff(c, s);
    var s1 := s.(active := s.active[job.id := job], held := s.held + {job.id});
    forall t ensures Count(s1.active, t) <= Limit(c, t) {
      CountAdd(s.active, job, t);
    }
    CountAdd(s.active, job, job.jobType);
    hide Count, Eligible;
    NextClaimKeeps(c, s1, p, poll.capacity, poll.claimed + 1);
  }

  lemma SettleKeeps(c: Config, s: State, id: string)
    requires Capacity(c, s) && Enabled(s, ExecutionSettled(id))
    ensures Capacity(c, Step(c, s, ExecutionSettled(id)))
  {
    assert (s.active - {id}).Keys <= s.held - {id};
    hide Count, Step, Capacity;
    SettledState(c, s, id);
    RemovedFewer(s.active, id);
    FewerKeep(c, s, s.active - {id}, s.held - {id});
  }

  lemma FewerKeep(c: Config, s: State, active: map<string, Job>, held: set<string>)
    requires Capacity(c, s) && active.Keys <= held && |active| <= |s.active| && forall t :: Count(active, t) <= Count(s.active, t)
    ensures Capacity(c, s.(active := active, held := held))
  {
    hide Count, PollFits;
    var sNext := s.(active := active, held := held);
    forall p | p in sNext.polls ensures PollFits(c, sNext, sNext.polls[p]) {
      FewerFit(c, s, sNext, s.polls[p]);
    }
  }

  lemma SettledState(c: Config, s: State, id: string)
    requires Enabled(s, ExecutionSettled(id))
    ensures Step(c, s, ExecutionSettled(id)) == s.(active := s.active - {id}, held := s.held - {id})
  {
    hide NextClaim, Eligible, Count;
  }

  lemma RemovedFewer(active: map<string, Job>, id: string)
    ensures |active - {id}| <= |active| && forall t :: Count(active - {id}, t) <= Count(active, t)
  {
    CountRemove(active, id, "");
    hide Count;
    forall t ensures Count(active - {id}, t) <= Count(active, t) {
      CountRemove(active, id, t);
    }
  }

  lemma FewerFit(c: Config, s: State, sNext: State, p: Poll)
    requires PollFits(c, s, p) && |sNext.active| <= |s.active| && forall t :: Count(sNext.active, t) <= Count(s.active, t)
    ensures PollFits(c, sNext, p)
  {
    hide Count;
  }

  lemma CapacityStep(c: Config, s: State, e: Event)
    requires ValidConfig(c) && Capacity(c, s) && LeasesOk(s) && Enabled(s, e)
    requires e.PollStart? ==> s.polls == map[]
    ensures Capacity(c, Step(c, s, e))
  {
    assert s.active.Keys <= s.held;
    if e.Claimed? && e.job.Some? && !s.stopping {
      ClaimKeeps(c, s, e.poll, e.job.value);
    } else if e.ExecutionSettled? {
      SettleKeeps(c, s, e.jobId);
    } else {
      hide Count, NextClaim, Capacity;
      if e.Recovered? && !s.stopping && c.handlers != [] && |s.active| < c.concurrency {
        RecoveredKeeps(c, s, e.poll);
      } else {
        QuietStep(c, s, e);
        hide Step;
        SamePolls(c, s, Step(c, s, e));
      }
    }
  }

  lemma RecoveredKeeps(c: Config, s: State, poll: nat)
    requires Capacity(c, s) && Enabled(s, Recovered(poll)) && !s.stopping && c.handlers != [] && |s.active| < c.concurrency
    ensures Capacity(c, Step(c, s, Recovered(poll)))
  {
    hide Count, NextClaim;
    NextClaimKeeps(c, s, poll, c.concurrency - |s.active|, 0);
  }

  /** An event that neither starts nor settles an execution nor asks for a job. */
  lemma QuietStep(c: Config, s: State, e: Event)
    requires s.active.Keys <= s.held && LeasesOk(s) && Enabled(s, e) && !e.ExecutionSettled?
    requires !(e.Claimed? && e.job.Some? && !s.stopping)
    requires !(e.Recovered? && !s.stopping && c.handlers != [] && |s.active| < c.concurrency)
    requires e.PollStart? ==> s.polls == map[]
    ensures var sNext := Step(c, s, e);
      && sNext.active == s.active && s.active.Keys <= sNext.held
      && (forall p :: p in sNext.polls ==> p in s.polls || sNext.polls.Keys == {p})
      && (forall p :: p in sNext.polls && sNext.polls[p].Claiming? ==> p in s.polls && sNext.polls[p] == s.polls[p])
  {
    hide Count, NextClaim;
    if e.LeaseReleased? || e.PollFails? {
      assert s.polls[e.poll].Releasing? ==> ReleasingJob(s, e.poll, s.polls[e.poll].job.id);
    }
  }

  lemma SamePolls(c: Config, s: State, sNext: State)
    requires Capacity(c, s) && sNext.active == s.active && s.active.Keys <= sNext.held
    requires forall p :: p in sNext.polls ==> p in s.polls || sNext.polls.Keys == {p}
    requires forall p :: p in sNext.polls && sNext.polls[p].Claiming? ==> p in s.polls && sNext.polls[p] == s.polls[p]
    ensures Capacity(c, sNext)
  {
    hide Count;
    forall p, q | p in sNext.polls && q in sNext.polls ensures p == q {
      if p !in s.polls {
        assert q in {p};
      }
    }
  }

  /**
    Capacity. With polls that do not overlap, and executions finishing at arbitrary points, no
    reachable state runs more than `concurrency` jobs or more jobs of a type than its limit.
   */
  lemma {:induction false} CapacityHolds(c: Config, s: State, events: seq<Event>)
    requires ValidConfig(c) && Capacity(c, s) && LeasesOk(s) && IsRun(c, s, events) && Serial(c, s, events)
    ensures Capacity(c, Run(c, s, events))
    decreases |events|
  {
    hide Capacity, Step, LeasesOk;
    if events != [] {
      CapacityStep(c, s, events[0]);
      LeasesStep(c, s, events[0]);
      CapacityHolds(c, Step(c, s, events[0]), events[1..]);
    }
  }

  lemma NeverOverCapacity(c: Config, events: seq<Event>)
    requires ValidConfig(c) && IsRun(c, Initial(), events) && Serial(c, Initial(), events)
    ensures WithinLimits(c, Run(c, Initial(), events))
  {
    assert forall t :: OfType(map[], t) == {};
    CapacityHolds(c, Initial(), events);
  }

  // ---------------------------------------------------------------- shutdown

  /** Holds for overlapping polls too. */
  ghost predicate Draining(s: State)
  {
    && (s.stopping <==> !s.phase.Running?)
    && (s.phase.Grace? || s.phase.Final? || s.phase.Stopped? ==> s.polls == map[])
    && (s.phase.Final? ==> s.active.Keys <= s.phase.waiting)
    && (s.phase.Stopped? ==> s.active == map[])
  }

  lemma DrainingStep(c: Config, s: State, e: Event)
    requires Draining(s) && Enabled(s, e)
    ensures Draining(Step(c, s, e))
    ensures s.stopping ==> Step(c, s, e).stopping && Step(c, s, e).active.Keys <= s.active.Keys
  {
    hide Eligible;
  }

  /** From the moment `stopping` is set no execution is ever added, whatever polls were open. */
  lemma {:induction false} StopAddsNothing(c: Config, s: State, events: seq<Event>)
    requires Draining(s) && LeasesOk(s) && IsRun(c, s, events)
    ensures Draining(Run(c, s, events)) && LeasesOk(Run(c, s, events))
    ensures s.stopping ==> Run(c, s, events).stopping && Run(c, s, events).active.Keys <= s.active.Keys
    decreases |events|
  {
    hide Draining, Step, LeasesOk;
    if events != [] {
      DrainingStep(c, s, events[0]);
      LeasesStep(c, s, events[0]);
      StopAddsNothing(c, Step(c, s, events[0]), events[1..]);
    }
  }

  /**
    Shutdown. When the first `stop()` returns, nothing is active, no poll is open and the worker
    holds no lease: every job claimed after the stop had its lease released, unless the release
    call itself failed (`lost`). This stays so ever after.
   */
  lemma StopDrains(c: Config, events: seq<Event>)
    requires IsRun(c, Initial(), events)
    ensures var s := Run(c, Initial(), events);
      s.phase.Stopped? ==> s.active == map[] && s.polls == map[] && s.held == {}
  {
    StopAddsNothing(c, Initial(), events);
  }

  /** What the worker keeps true of itself as long as its polls do not overlap. */
  ghost predicate Sound(c: Config, s: State)
  {
    ValidConfig(c) && Capacity(c, s) && LeasesOk(s) && Draining(s)
  }

  /** What one event promises the caller: the limits hold, a stopping worker gains no execution, a stopped one has none left. */
  ghost predicate Promised(c: Config, before: State, after: State)
  {
    && WithinLimits(c, after)
    && (before.stopping ==> after.stopping && after.active.Keys <= before.active.Keys)
    && (after.phase.Stopped? ==> after.active == map[] && after.polls == map[] && after.held == {})
  }

  lemma SoundStart(c: Config)
    requires ValidConfig(c)
    ensures Sound(c, Initial())
  {
    assert forall t :: OfType(map[], t) == {};
  }

  /** Every event keeps the worker sound and keeps the promise, provided no poll starts while another is open. */
  lemma SoundStep(c: Config, s: State, e: Event)
    requires Sound(c, s) && Enabled(s, e) && (e.PollStart? ==> s.polls == map[])
    ensures Sound(c, Step(c, s, e)) && Promised(c, s, Step(c, s, e))
  {
    CapacityStep(c, s, e);
    LeasesStep(c, s, e);
    DrainingStep(c, s, e);
    hide Step, ValidConfig, WithinLimits;
    assert Draining(Step(c, s, e));
  }

  /**
    A job claimed once the worker is stopping is never executed, at no point of any continuation, and
    the next step of its poll gives the lease back.
   */
  lemma ClaimAfterStop(c: Config, s: State, p: nat, job: Job, events: seq<Event>)
    requires Draining(s) && LeasesOk(s) && s.stopping && Enabled(s, Claimed(p, Some(job)))
    requires IsRun(c, Step(c, s, Claimed(p, Some(job))), events)
    ensures var sNext := Step(c, s, Claimed(p, Some(job)));
      && job.id !in Run(c, sNext, events).active
      && Enabled(sNext, LeaseReleased(p)) && Step(c, sNext, LeaseReleased(p)).held == s.held
  {
    var e := Claimed(p, Some(job));
    var sNext := Step(c, s, e);
    assert s.held + {job.id} - {job.id} == s.held && job.id !in sNext.active;
    assert Enabled(sNext, LeaseReleased(p)) && Step(c, sNext, LeaseReleased(p)).held == s.held;
    DrainingStep(c, s, e);
    LeasesStep(c, s, e);
    hide Step, IsRun, Run, Draining, LeasesOk;
    StopAddsNothing(c, sNext, events);
  }

  // ---------------------------------------------------------------- overlapping polls

  lemma {:induction false} RunSnoc(c: Config, s: State, events: seq<Event>, e: Event)
    requires IsRun(c, s, events) && Enabled(Run(c, s, events), e)
    ensures IsRun(c, s, events + [e]) && Run(c, s, events + [e]) == Step(c, Run(c, s, events), e)
    decreases |events|
  {
    hide Step, Enabled;
    if events == [] {
      assert [] + [e] == [e] && [e][1..] == [];
    } else {
      RunSnoc(c, Step(c, s, events[0]), events[1..], e);
      assert (events + [e])[0] == events[0] && (events + [e])[1..] == events[1..] + [e];
    }
  }

  /** Distinct job ids, one for each number. */
  function JobId(n: nat): (id: string)
    ensures |id| == n
  {
    seq(n, i => 'j')
  }

  /** The first `n` jobs, all of one type. */
  ghost function Filled(t: string, n: nat): (active: map<string, Job>)
  {
    if n == 0 then map[] else Filled(t, n - 1)[JobId(n - 1) := Job(JobId(n - 1), t)]
  }

  lemma {:induction false} FilledFacts(t: string, n: nat)
    ensures forall id :: id in Filled(t, n) ==> |id| < n && Filled(t, n)[id].jobType == t
    ensures |Filled(t, n)| == n
  {
    if n > 0 {
      FilledFacts(t, n - 1);
    }
  }

  lemma FilledCount(t: string, n: nat)
    ensures Count(Filled(t, n), t) == n
  {
    FilledFacts(t, n);
    hide Filled;
    assert OfType(Filled(t, n), t) == Filled(t, n).Keys;
  }

  lemma FilledEligible(c: Config, t: string, n: nat)
    requires t in c.handlers && n < Limit(c, t)
    ensures t in Eligible(c, Filled(t, n)) && Eligible(c, Filled(t, n)) != {}
  {
    FilledCount(t, n);
    hide Count, Filled;
  }

  /** Poll 0 has claimed `n` jobs of the first type; poll 1 still waits for its first, with the types of the empty worker. */
  ghost function TwoPolls(c: Config, t: string, n: nat): (s: State)
  {
    State(Filled(t, n),
          map[0 := Claiming(c.concurrency, n, Eligible(c, Filled(t, n))), 1 := Claiming(c.concurrency, 0, Eligible(c, Filled(t, 0)))],
          false, Running, Filled(t, n).Keys, {})
  }

  lemma StartStep(c: Config, s: State, p: nat)
    requires p !in s.polls && !s.stopping
    ensures Enabled(s, PollStart(p)) && Step(c, s, PollStart(p)) == s.(polls := s.polls[p := Recovering])
  {
  }

  lemma RecoverStep(c: Config, s: State, p: nat)
    requires p in s.polls && s.polls[p].Recovering? && !s.stopping && c.handlers != [] && |s.active| < c.concurrency
    requires Eligible(c, s.active) != {}
    ensures Enabled(s, Recovered(p))
    ensures Step(c, s, Recovered(p)) == s.(polls := s.polls[p := Claiming(c.concurrency - |s.active|, 0, Eligible(c, s.active))])
  {
    hide Eligible;
  }

  predicate MayClaim(s: State, p: nat, job: Job)
  {
    && p in s.polls && s.polls[p].Claiming? && !s.stopping
    && job.jobType in s.polls[p].eligible && job.id !in s.held && job.id !in s.lost
  }

  lemma ClaimStep(c: Config, s: State, p: nat, job: Job)
    requires MayClaim(s, p, job)
    ensures Enabled(s, Claimed(p, Some(job)))
    ensures var sNext, active := Step(c, s, Claimed(p, Some(job))), s.active[job.id := job];
      && sNext == s.(active := active, held := s.held + {job.id}, polls := sNext.polls)
      && (forall q :: q in s.polls && q != p ==> q in sNext.polls && sNext.polls[q] == s.polls[q])
      && (s.polls[p].claimed + 1 < s.polls[p].capacity && Eligible(c, active) != {} ==>
            sNext.polls == s.polls[p := Claiming(s.polls[p].capacity, s.polls[p].claimed + 1, Eligible(c, active))])
  {
    hide Eligible;
  }

  /** Two polls that start before either claims are both told the whole free capacity. */
  lemma BothAsking(c: Config, t: string)
    requires 1 <= c.concurrency && t in c.handlers && 0 < Limit(c, t)
    ensures var events := [PollStart(0), PollStart(1), Recovered(0), Recovered(1)];
      IsRun(c, Initial(), events) && Run(c, Initial(), events) == TwoPolls(c, t, 0)
  {
    FilledEligible(c, t, 0);
    NothingFilled(t);
    hide Step, Run, IsRun, Eligible, Filled, Enabled, Limit;
    var events := [PollStart(0), PollStart(1), Recovered(0)];
    var claiming := Claiming(c.concurrency, 0, Eligible(c, map[]));
    var s3 := Initial().(polls := map[0 := claiming, 1 := Recovering]);
    FirstAsks(c);
    RecoverStep(c, s3, 1);
    RunSnoc(c, Initial(), events, Recovered(1));
    assert events + [Recovered(1)] == [PollStart(0), PollStart(1), Recovered(0), Recovered(1)];
    BothClaiming(c, t, claiming);
  }

  lemma BothClaiming(c: Config, t: string, claiming: Poll)
    requires claiming == Claiming(c.concurrency, 0, Eligible(c, map[]))
    ensures var s3 := Initial().(polls := map[0 := claiming, 1 := Recovering]);
      s3.(polls := s3.polls[1 := claiming]) == TwoPolls(c, t, 0)
  {
    NothingFilled(t);
    hide Eligible, Filled;
    assert map[0 := claiming, 1 := Recovering][1 := claiming] == map[0 := claiming, 1 := claiming];
  }

  lemma NothingFilled(t: string)
    ensures Filled(t, 0) == map[] && Filled(t, 0).Keys == {}
  {
  }

  lemma FirstAsks(c: Config)
    requires 1 <= c.concurrency && c.handlers != [] && Eligible(c, map[]) != {}
    ensures var events := [PollStart(0), PollStart(1), Recovered(0)];
      && IsRun(c, Initial(), events)
      && Run(c, Initial(), events) == Initial().(polls := map[0 := Claiming(c.concurrency, 0, Eligible(c, map[])), 1 := Recovering])
  {
    hide Step, Run, IsRun, Eligible, Enabled;
    var events := [PollStart(0), PollStart(1)];
    BothStarted(c);
    RecoverStep(c, Initial().(polls := map[0 := Recovering, 1 := Recovering]), 0);
    RunSnoc(c, Initial(), events, Recovered(0));
    assert events + [Recovered(0)] == [PollStart(0), PollStart(1), Recovered(0)];
  }

  lemma BothStarted(c: Config)
    ensures var events := [PollStart(0), PollStart(1)];
      IsRun(c, Initial(), events) && Run(c, Initial(), events) == Initial().(polls := map[0 := Recovering, 1 := Recovering])
  {
    assert Run(c, Initial(), []) == Initial() && IsRun(c, Initial(), []);
    hide Step, Run, IsRun, Enabled;
    StartStep(c, Initial(), 0);
    RunSnoc(c, Initial(), [], PollStart(0));
    assert [] + [PollStart(0)] == [PollStart(0)];
    StartStep(c, Initial().(polls := map[0 := Recovering]), 1);
    RunSnoc(c, Initial(), [PollStart(0)], PollStart(1));
    assert [PollStart(0)] + [PollStart(1)] == [PollStart(0), PollStart(1)];
  }

  lemma FilledNext(t: string, n: nat)
    ensures JobId(n) !in Filled(t, n)
    ensures Filled(t, n + 1) == Filled(t, n)[JobId(n) := Job(JobId(n), t)]
    ensures Filled(t, n + 1).Keys == Filled(t, n).Keys + {JobId(n)}
  {
    FilledFacts(t, n);
  }

  lemma NextFill(c: Config, t: string, n: nat)
    requires t in c.handlers && n + 1 < Limit(c, t) <= c.concurrency
    ensures var s, e := TwoPolls(c, t, n), Claimed(0, Some(Job(JobId(n), t)));
      Enabled(s, e) && Step(c, s, e) == TwoPolls(c, t, n + 1)
  {
    FilledEligible(c, t, n);
    FilledEligible(c, t, n + 1);
    FilledNext(t, n);
    hide Eligible, Filled, Step, Enabled, Limit, JobId;
    ClaimStep(c, TwoPolls(c, t, n), 0, Job(JobId(n), t));
  }

  /** Poll 0 fills its type up to one below the limit. */
  lemma {:induction false} Fill(c: Config, t: string, n: nat) returns (events: seq<Event>)
    requires t in c.handlers && n < Limit(c, t) <= c.concurrency
    ensures IsRun(c, Initial(), events) && Run(c, Initial(), events) == TwoPolls(c, t, n)
    ensures forall i :: 0 <= i < |events| && events[i].PollStart? ==> events[i].poll == 0 || events[i].poll == 1
  {
    hide IsRun, Run, Step, Enabled, TwoPolls, Limit;
    if n == 0 {
      BothAsking(c, t);
      events := [PollStart(0), PollStart(1), Recovered(0), Recovered(1)];
    } else {
      var before := Fill(c, t, n - 1);
      NextFill(c, t, n - 1);
      RunSnoc(c, Initial(), before, Claimed(0, Some(Job(JobId(n - 1), t))));
      events := before + [Claimed(0, Some(Job(JobId(n - 1), t)))];
    }
  }

  /** From one below the limit, a claim of each poll goes past it. */
  lemma BothClaim(c: Config, t: string, n: nat)
    requires t in c.handlers && Limit(c, t) == n + 1
    ensures var s, first, second := TwoPolls(c, t, n), Claimed(0, Some(Job(JobId(n), t))), Claimed(1, Some(Job(JobId(n + 1), t)));
      && Enabled(s, first) && Enabled(Step(c, s, first), second)
      && Step(c, Step(c, s, first), second).active == Filled(t, n + 2)
  {
    FilledEligible(c, t, n);
    FilledEligible(c, t, 0);
    FilledNext(t, n);
    FilledNext(t, n + 1);
    hide Eligible, Filled, Step, Enabled, Limit, JobId;
    ClaimStep(c, TwoPolls(c, t, n), 0, Job(JobId(n), t));
    ClaimStep(c, Step(c, TwoPolls(c, t, n), Claimed(0, Some(Job(JobId(n), t)))), 1, Job(JobId(n + 1), t));
  }

  lemma OverFilled(c: Config, t: string, n: nat) returns (events: seq<Event>)
    requires t in c.handlers && Limit(c, t) == n + 1 <= c.concurrency
    ensures IsRun(c, Initial(), events) && Run(c, Initial(), events).active == Filled(t, n + 2)
    ensures forall i :: 0 <= i < |events| && events[i].PollStart? ==> events[i].poll == 0 || events[i].poll == 1
  {
    hide IsRun, Run, Step, Enabled, TwoPolls, Filled, Limit, JobId;
    var before := Fill(c, t, n);
    BothClaim(c, t, n);
    var first, second := Claimed(0, Some(Job(JobId(n), t))), Claimed(1, Some(Job(JobId(n + 1), t)));
    RunSnoc(c, Initial(), before, first);
    RunSnoc(c, Initial(), before + [first], second);
    events := before + [first] + [second];
  }

  /**
    The capacity bound needs the serial polls of `run()`, under every configuration with a handler:
    two overlapping `runOnce` calls are each told the same free capacity and eligible types, and a
    run of them goes past the limit of a type.
   */
  lemma OverlapExceeds(c: Config) returns (events: seq<Event>)
    requires ValidConfig(c) && c.handlers != []
    ensures IsRun(c, Initial(), events) && !WithinLimits(c, Run(c, Initial(), events)) && !Serial(c, Initial(), events)
    ensures forall i :: 0 <= i < |events| && events[i].PollStart? ==> events[i].poll == 0 || events[i].poll == 1
  {
    var t := c.handlers[0];
    assert 1 <= Limit(c, t) <= c.concurrency;
    hide IsRun, Run, Step, Enabled, Serial, Filled, ValidConfig, Count, Limit;
    var n := Limit(c, t) - 1;
    events := OverFilled(c, t, n);
    FilledCount(t, n + 2);
    assert Count(Run(c, Initial(), events).active, t) > Limit(c, t);
    WithinLimitsIff(c, Run(c, Initial(), events));
    if Serial(c, Initial(), events) {
      NeverOverCapacity(c, events);
    }
  }

  // ---------------------------------------------------------------- the worker object

  datatype ConfigError = ConcurrencyOutOfRange | UnregisteredJobType | LimitOutOfRange

  predicate IsUsable(handlers: seq<string>, entry: (string, int))
  {
    Trim(entry.0) != "" && Trim(entry.0) in handlers && 1 <= entry.1 <= 100
  }

  /** The limits the first `n` entries ask for; a later entry for a type replaces an earlier one. */
  ghost function Requested(requested: seq<(string, int)>, n: nat, concurrency: nat): (limits: map<string, int>)
    requires n <= |requested|
  {
    if n == 0 then map[]
    else
      var limit := requested[n - 1].1;
      Requested(requested, n - 1, concurrency)[Trim(requested[n - 1].0) := if limit < concurrency then limit else concurrency]
  }

  /** No later entry is for the same type. */
  ghost predicate IsLastEntry(requested: seq<(string, int)>, i: nat, n: nat)
    requires n <= |requested|
  {
    i < n && forall j :: i < j < n ==> Trim(requested[j].0) != Trim(requested[i].0)
  }

  ghost predicate HasEntry(requested: seq<(string, int)>, n: nat, t: string)
    requires n <= |requested|
  {
    exists i: nat :: IsLastEntry(requested, i, n) && Trim(requested[i].0) == t
  }

  /** The last entry of each type sets its limit, cut to the concurrency, and nothing else does. */
  ghost predicate Configures(requested: seq<(string, int)>, n: nat, concurrency: nat, limits: map<string, int>)
    requires n <= |requested|
  {
    && (forall i: nat :: IsLastEntry(requested, i, n) ==>
          && Trim(requested[i].0) in limits
          && limits[Trim(requested[i].0)] == if requested[i].1 < concurrency then requested[i].1 else concurrency)
    && (forall t :: t in limits ==> HasEntry(requested, n, t))
  }

  lemma {:induction false} RequestedConfigures(requested: seq<(string, int)>, n: nat, concurrency: nat)
    requires n <= |requested|
    ensures Configures(requested, n, concurrency, Requested(requested, n, concurrency))
  {
    hide Configures, Trim;
    if n == 0 {
      NothingConfigured(requested, concurrency);
    } else {
      RequestedConfigures(requested, n - 1, concurrency);
      ConfiguresNext(requested, n - 1, concurrency, Requested(requested, n - 1, concurrency));
    }
  }

  lemma NothingConfigured(requested: seq<(string, int)>, concurrency: nat)
    ensures Configures(requested, 0, concurrency, map[])
  {
  }

  lemma LastEntryNext(requested: seq<(string, int)>, i: nat, n: nat)
    requires n < |requested|
    ensures IsLastEntry(requested, i, n + 1) <==> i == n || (IsLastEntry(requested, i, n) && Trim(requested[i].0) != Trim(requested[n].0))
  {
    hide Trim;
  }

  lemma HasEntryNext(requested: seq<(string, int)>, n: nat, t: string)
    requires n < |requested| && (HasEntry(requested, n, t) || Trim(requested[n].0) == t)
    ensures HasEntry(requested, n + 1, t)
  {
    hide Trim;
    if Trim(requested[n].0) == t {
      LastEntryNext(requested, n, n);
    } else {
      var i: nat :| IsLastEntry(requested, i, n) && Trim(requested[i].0) == t;
      LastEntryNext(requested, i, n);
    }
  }

  lemma ConfiguresNext(requested: seq<(string, int)>, n: nat, concurrency: nat, limits: map<string, int>)
    requires n < |requested| && Configures(requested, n, concurrency, limits)
    ensures var limit := requested[n].1;
      Configures(requested, n + 1, concurrency, limits[Trim(requested[n].0) := if limit < concurrency then limit else concurrency])
  {
    var limit := requested[n].1;
    var longer := limits[Trim(requested[n].0) := if limit < concurrency then limit else concurrency];
    forall t | t in longer ensures HasEntry(requested, n + 1, t) {
      HasEntryNext(requested, n, t);
    }
    hide HasEntry, Trim;
    forall i: nat | IsLastEntry(requested, i, n + 1)
      ensures Trim(requested[i].0) in longer
      ensures longer[Trim(requested[i].0)] == if requested[i].1 < concurrency then requested[i].1 else concurrency
    {
      LastEntryNext(requested, i, n);
      hide IsLastEntry;
    }
  }

  /** From the options to every run with serial polls: no type runs more jobs than its last entry asks for. */
  lemma NeverOverAsked(requested: seq<(string, int)>, i: nat, c: Config, events: seq<Event>)
    requires ValidConfig(c) && Configures(requested, |requested|, c.concurrency, c.limits)
    requires IsLastEntry(requested, i, |requested|) && IsRun(c, Initial(), events) && Serial(c, Initial(), events)
    ensures Count(Run(c, Initial(), events).active, Trim(requested[i].0)) <= requested[i].1
  {
    NeverOverCapacity(c, events);
    hide Run, IsRun, Serial, Count, Trim, ValidConfig;
  }

  lemma {:induction false} RequestedValid(handlers: seq<string>, requested: seq<(string, int)>, n: nat, concurrency: nat)
    requires n <= |requested| && concurrency >= 1 && AllUsable(handlers, requested, n)
    ensures forall t :: t in Requested(requested, n, concurrency) ==>
      t in handlers && 1 <= Requested(requested, n, concurrency)[t] <= concurrency
  {
    if n > 0 {
      RequestedValid(handlers, requested, n - 1, concurrency);
      assert IsUsable(handlers, requested[n - 1]);
      hide Trim;
    }
  }

  ghost predicate DistinctNames(names: seq<string>)
  {
    forall i, j :: 0 <= i < j < |names| ==> names[i] != names[j]
  }

  lemma ConfigValid(c: Config)
    requires 1 <= c.concurrency <= 100 && DistinctNames(c.handlers)
    requires forall t :: t in c.limits ==> t in c.handlers && 1 <= c.limits[t] <= c.concurrency
    ensures ValidConfig(c)
  {
  }

  function CheckEntry(handlers: seq<string>, entry: (string, int)): (error: Option<ConfigError>)
    ensures error.None? <==> IsUsable(handlers, entry)
  {
    if Trim(entry.0) == "" || Trim(entry.0) !in handlers then Some(UnregisteredJobType)
    else if entry.1 < 1 || entry.1 > 100 then Some(LimitOutOfRange)
    else None
  }

  ghost predicate AllUsable(handlers: seq<string>, requested: seq<(string, int)>, n: nat)
    requires n <= |requested|
  {
    forall i :: 0 <= i < n ==> IsUsable(handlers, requested[i])
  }

  lemma UsableNext(handlers: seq<string>, requested: seq<(string, int)>, n: nat)
    requires n < |requested|
    ensures AllUsable(handlers, requested, n + 1) <==> AllUsable(handlers, requested, n) && IsUsable(handlers, requested[n])
    ensures AllUsable(handlers, requested, |requested|) ==> AllUsable(handlers, requested, n + 1)
  {
    hide IsUsable;
  }

  /** The constructor's reading of `concurrency` and `jobTypeConcurrency`. */
  method ReadConfig(handlers: seq<string>, concurrency: int, requested: seq<(string, int)>)
    returns (r: Result<Config, ConfigError>)
    requires DistinctNames(handlers)
    ensures r.Success? <==> 1 <= concurrency <= 100 && AllUsable(handlers, requested, |requested|)
    ensures r.Success? ==> ValidConfig(r.value) && r.value.concurrency == concurrency && r.value.handlers == handlers
    ensures r.Success? ==> Configures(requested, |requested|, concurrency, r.value.limits)
  {
    if concurrency < 1 || concurrency > 100 {
      return Failure(ConcurrencyOutOfRange);
    }
    var limits: map<string, int> := map[];
    assert AllUsable(handlers, requested, 0);
    hide Trim, IsUsable, AllUsable, DistinctNames, ValidConfig, CheckEntry;
    for i := 0 to |requested|
      invariant AllUsable(handlers, requested, i)
      invariant limits == Requested(requested, i, concurrency)
    {
      UsableNext(handlers, requested, i);
      var error := CheckEntry(handlers, requested[i]);
      if error.Some? {
        return Failure(error.value);
      }
      var limit := requested[i].1;
      limits := limits[Trim(requested[i].0) := if limit < concurrency then limit else concurrency];
    }
    RequestedConfigures(requested, |requested|, concurrency);
    hide Requested, Configures;
    RequestedValid(handlers, requested, |requested|, concurrency);
    ConfigValid(Config(concurrency, limits, handlers));
    r := Success(Config(concurrency, limits, handlers));
  }

  /**
    The worker as an object. Each method is what the source runs between two `await`s, and is
    proved to be the corresponding event of the state machine above.
   */
  class Worker {
    const config: Config
    var active: map<string, Job>
    var polls: map<nat, Poll>
    var stopping: bool
    var phase: Phase
    ghost var held: set<string>
    ghost var lost: set<string>

    ghost function View(): (s: State)
      reads this
    {
      State(active, polls, stopping, phase, held, lost)
    }

    ghost predicate Valid()
      reads this
    {
      Sound(config, View())
    }

    constructor (config: Config)
      requires ValidConfig(config)
      ensures this.config == config && View() == Initial() && Valid()
    {
      this.config := config;
      active, polls, stopping, phase := map[], map[], false, Running;
      held, lost := {}, {};
      new;
      SoundStart(config);
    }

    /** Counting the active executions per job type. */
    method CountActive() returns (counts: map<string, nat>)
      ensures forall t :: (if t in counts then counts[t] else 0) == Count(active, t)
    {
      counts := map[];
      var remaining := active.Keys;
      assert forall t :: Among(active.Keys - remaining, t) == {};
      while remaining != {}
        invariant remaining <= active.Keys
        invariant forall t :: (if t in counts then counts[t] else 0) == |Among(active.Keys - remaining, t)|
        decreases remaining
      {
        hide Among;
        var id :| id in remaining;
        var jobType := active[id].jobType;
        CountOne(remaining, id);
        assert forall t :: CountedOne(remaining, id, t);
        ghost var before := remaining;
        counts := counts[jobType := (if jobType in counts then counts[jobType] else 0) + 1];
        remaining := remaining - {id};
        forall t
          ensures (if t in counts then counts[t] else 0) == |Among(active.Keys - remaining, t)|
        {
          assert CountedOne(before, id, t);
        }
      }
      assert forall t :: Among(active.Keys - {}, t) == OfType(active, t);
    }

    ghost function Among(ids: set<string>, t: string): (r: set<string>)
      reads this
    {
      set id | id in ids && id in active && active[id].jobType == t
    }

    ghost predicate CountedOne(remaining: set<string>, id: string, t: string)
      reads this
      requires id in active
    {
      var more := if active[id].jobType == t then 1 else 0;
      |Among(active.Keys - (remaining - {id}), t)| == |Among(active.Keys - remaining, t)| + more
    }

    lemma CountOne(remaining: set<string>, id: string)
      requires id in remaining && remaining <= active.Keys
      ensures forall t :: CountedOne(remaining, id, t)
    {
      forall t
        ensures CountedOne(remaining, id, t)
      {
        var seen := active.Keys - remaining;
        assert active.Keys - (remaining - {id}) == seen + {id};
        if active[id].jobType == t {
          assert Among(seen + {id}, t) == Among(seen, t) + {id};
        } else {
          assert Among(seen + {id}, t) == Among(seen, t);
        }
      }
    }

    /** The job types that may still take a job, in the order of the handlers. */
    method EligibleTypes() returns (types: seq<string>)
      ensures (set t | t in types) == Eligible(config, active)
      ensures forall t :: t in types <==>
        t in config.handlers && Count(active, t) < (if t in config.limits then config.limits[t] else config.concurrency)
    {
      var counts := CountActive();
      types := [];
      for i := 0 to |config.handlers|
        invariant forall t :: t in types <==> t in config.handlers[..i] && Count(active, t) < Limit(config, t)
      {
        hide Count;
        var t := config.handlers[i];
        if (if t in counts then counts[t] else 0) < Limit(config, t) {
          types := types + [t];
        }
        assert config.handlers[..i + 1] == config.handlers[..i] + [t];
      }
      assert config.handlers[..|config.handlers|] == config.handlers;
    }

    method NextClaimStep(poll: nat, capacity: nat, claimed: nat)
      modifies this`polls
      ensures View() == NextClaim(config, old(View()), poll, capacity, claimed)
    {
      if claimed < capacity {
        var types := EligibleTypes();
        if types != [] {
          assert types[0] in Eligible(config, active);
          polls := polls[poll := Claiming(capacity, claimed, set t | t in types)];
          return;
        }
      }
      polls := polls - {poll};
    }

    /** `runOnce`, which `run()` calls only when no other poll is open. */
    method RunOnce(poll: nat)
      requires Valid() && polls == map[]
      modifies this`polls
      ensures View() == Step(config, old(View()), PollStart(poll))
      ensures Valid() && Promised(config, old(View()), View())
    {
      SoundStep(config, View(), PollStart(poll));
      hide Sound, Promised;
      if !stopping {
        polls := polls[poll := Recovering];
      }
    }

    method AfterRecovery(poll: nat)
      requires Valid() && Enabled(View(), Recovered(poll))
      modifies this`polls
      ensures View() == Step(config, old(View()), Recovered(poll))
      ensures Valid() && Promised(config, old(View()), View())
    {
      SoundStep(config, View(), Recovered(poll));
      hide Sound, Promised, NextClaim, Eligible, Count;
      if stopping || |config.handlers| == 0 {
        polls := polls - {poll};
        return;
      }
      var capacity := config.concurrency - |active|;
      if capacity <= 0 {
        polls := polls - {poll};
        return;
      }
      NextClaimStep(poll, capacity, 0);
    }

    method AfterClaim(poll: nat, job: Option<Job>)
      requires Valid() && Enabled(View(), Claimed(poll, job))
      modifies this`polls, this`active, this`held
      ensures View() == Step(config, old(View()), Claimed(poll, job))
      ensures Valid() && Promised(config, old(View()), View())
    {
      SoundStep(config, View(), Claimed(poll, job));
      hide Sound, Promised, NextClaim, Eligible, Count;
      if job.None? {
        polls := polls - {poll};
        return;
      }
      if stopping {
        held := held + {job.value.id};
        polls := polls[poll := Releasing(job.value)];
        return;
      }
      Execute(poll, job.value);
    }

    /** A claimed job is entered among the active ones, and the poll asks again. */
    method Execute(poll: nat, job: Job)
      requires poll in polls && polls[poll].Claiming?
      modifies this`polls, this`active, this`held
      ensures var before := old(View());
        View() == NextClaim(config, before.(active := before.active[job.id := job], held := before.held + {job.id}),
                            poll, before.polls[poll].capacity, before.polls[poll].claimed + 1)
    {
      held := held + {job.id};
      active := active[job.id := job];
      NextClaimStep(poll, polls[poll].capacity, polls[poll].claimed + 1);
    }

    method AfterRelease(poll: nat)
      requires Valid() && Enabled(View(), LeaseReleased(poll))
      modifies this`polls, this`held
      ensures View() == Step(config, old(View()), LeaseReleased(poll))
      ensures Valid() && Promised(config, old(View()), View())
    {
      SoundStep(config, View(), LeaseReleased(poll));
      hide Sound, Promised;
      held := held - {polls[poll].job.id};
      polls := polls - {poll};
    }

    /** A poll that throws: the `finally` of `runOnce` removes it. */
    method AfterFailure(poll: nat)
      requires Valid() && Enabled(View(), PollFails(poll))
      modifies this`polls, this`held, this`lost
      ensures View() == Step(config, old(View()), PollFails(poll))
      ensures Valid() && Promised(config, old(View()), View())
    {
      SoundStep(config, View(), PollFails(poll));
      hide Sound, Promised;
      if polls[poll].Releasing? {
        held, lost := held - {polls[poll].job.id}, lost + {polls[poll].job.id};
      }
      polls := polls - {poll};
    }

    /** The `finally` of an execution. */
    method Settled(jobId: string)
      requires Valid() && jobId in active
      modifies this`active, this`held
      ensures View() == Step(config, old(View()), ExecutionSettled(jobId))
      ensures Valid() && Promised(config, old(View()), View())
    {
      SoundStep(config, View(), ExecutionSettled(jobId));
      hide Sound, Promised;
      active := active - {jobId};
      held := held - {jobId};
    }

    method Stop()
      requires Valid()
      modifies this`stopping, this`phase
      ensures View() == Step(config, old(View()), StopCalled) && stopping
      ensures Valid() && Promised(config, old(View()), View())
    {
      SoundStep(config, View(), StopCalled);
      hide Sound, Promised;
      if !stopping {
        stopping := true;
        phase := AwaitPolls;
      }
    }

    /** `stop()` after its three waits: open polls, the grace period, the remaining executions. */
    method ResumeStop()
      requires Valid() && (phase.AwaitPolls? || phase.Grace? || phase.Final?)
      requires phase.AwaitPolls? ==> polls == map[]
      requires phase.Final? ==> phase.waiting !! active.Keys
      modifies this`phase
      ensures View() == Step(config, old(View()),
        if old(phase).AwaitPolls? then PollsSettled else if old(phase).Grace? then GraceOver else DrainSettled)
      ensures Valid() && Promised(config, old(View()), View())
    {
      SoundStep(config, View(), if phase.AwaitPolls? then PollsSettled else if phase.Grace? then GraceOver else DrainSettled);
      hide Sound, Promised;
      if phase.AwaitPolls? {
        phase := if active == map[] then Stopped else Grace(active.Keys);
      } else if phase.Grace? {
        phase := Final(active.Keys);
      } else {
        phase := Stopped;
      }
    }
  }
}
