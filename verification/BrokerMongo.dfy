/** The desktop job broker over the database. A claim is a lookup, three sweeps,
    an exclusive lease and a second write that secures the lease hash; a report
    is a read and a conditional write. Every database call is one step, and any
    number of claims, reports, timeouts and removals interleave. */
module BrokerMongo {
  import opened Base
  import opened Broker
  import BrokerRuns

  /** A claim request, with the clock reading it took at its start. */
  datatype Claimer =
    | Starting(c: Claim, now: int)
    | Sweeping(c: Claim, now: int, done: nat)
    | Holding(c: Claim, now: int, jobId: string, leaseMs: int)
    | Answered(c: Claim, delivered: Option<string>)
    | DuplicateKey(c: Claim)

  datatype Reporter =
    | Reporting(r: Report)
    | MayRecord(r: Report, read: LeaseHash)
    | Reported(r: Report, outcome: Completion)
    | LeaseChanged(r: Report)

  datatype Event =
    | Took(jobId: string, caller: nat)
    | Secured(jobId: string, token: Token)
    | Delivered(jobId: string, token: Token)
    | Recorded(jobId: string, token: Token, r: Report)

  /** `ids`, `holders` and `log` are history: ids ever inserted, which claim leased
      each job, and what happened in order. */
  datatype System = System(
    jobs: map<string, Job>, claimers: map<nat, Claimer>, reporters: map<nat, Reporter>,
    ids: set<string>, holders: map<string, nat>, log: seq<Event>)

  datatype Op =
    | Insert(job: Job)
    | Remove(jobId: string)
    | StartClaim(caller: nat, c: Claim, now: int)
    | Lookup(caller: nat, found: Option<string>)
    | SweepStep(caller: nat)
    | Take(caller: nat, jobId: string)
    | TakeNothing(caller: nat)
    | Secure(caller: nat)
    | StartReport(caller: nat, r: Report)
    | ReadJob(caller: nat)
    | Record(caller: nat)
    | WaitUncertain(jobId: string, seenUncertain: Option<int>, seenReconcile: Option<int>, now: int)
    | WaitQueued(jobId: string, now: int)
    | DropPayload(jobId: string, now: int)

  // ------------------------------------------------------------- sweeps

  /** A missing field never satisfies the database's `$lte`. */
  predicate Passed(deadline: Option<int>, now: int) {
    deadline.Some? && deadline.value <= now
  }

  function SweepJob(j: Job, done: nat, now: int): Job {
    if done == 0 && j.status == Leased && Passed(j.leaseExpiresAt, now) then
      j.(status := OutcomeUnknown, error := Some(LEASE_EXPIRED), uncertainAt := Some(now), reconcileExpiresAt := Some(now + RECONCILE_MS))
    else if done == 1 && j.status == OutcomeUnknown && Passed(j.reconcileExpiresAt, now) then
      j.(status := ExpiredUnreconciled, error := Some(RECONCILE_ENDED), arguments := None, result := None,
         leaseHash := None, claimKey := None, purgedAt := Some(now))
    else if done == 2 && j.status == Queued && j.expiresAt <= now then
      j.(status := Expired, error := Some(NOT_ACCEPTED), arguments := None, result := None, purgedAt := Some(now))
    else j
  }

  function SweepJobs(jobs: map<string, Job>, done: nat, now: int): map<string, Job> {
    map id | id in jobs :: SweepJob(jobs[id], done, now)
  }

  // -------------------------------------------------------------- claims

  /** The oldest claimable job; ties are the database's choice. */
  predicate Oldest(jobs: map<string, Job>, c: Claim, id: string) {
    && id in jobs && Claimable(jobs[id], c)
    && forall other :: other in jobs && Claimable(jobs[other], c) ==> jobs[id].createdAt <= jobs[other].createdAt
  }

  predicate NothingClaimable(jobs: map<string, Job>, c: Claim) {
    forall id :: id in jobs ==> !Claimable(jobs[id], c)
  }

  /** Would leasing under this claim key break the unique (user, claim key) index? */
  predicate KeyTaken(jobs: map<string, Job>, c: Claim) {
    exists id :: id in jobs && HeldByKey(jobs[id], c)
  }

  function LeaseRow(j: Job, c: Claim, now: int): Job {
    j.(status := Leased, claimKey := c.key, leaseExpiresAt := Some(now + DEFAULT_LEASE_MS))
  }

  function SecureRow(j: Job, token: Token, leaseMs: int, now: int): Job {
    j.(leaseHash := Some(LeaseHash(j.id, token)), leaseExpiresAt := Some(now + Max(DEFAULT_LEASE_MS, leaseMs)))
  }

  function LookupStep(s: System, caller: nat, found: Option<string>): System
    requires caller in s.claimers && s.claimers[caller].Starting?
    requires found.Some? ==> found.value in s.jobs
  {
    var Starting(c, now) := s.claimers[caller];
    if found.None? then s.(claimers := s.claimers[caller := Sweeping(c, now, 0)])
    else if s.jobs[found.value].status == Leased then
      s.(claimers := s.claimers[caller := Answered(c, found)], log := s.log + [Delivered(found.value, LeaseToken(c))])
    else s.(claimers := s.claimers[caller := Answered(c, None)])
  }

  ghost function TakeStep(s: System, caller: nat, id: string): System
    requires caller in s.claimers && s.claimers[caller].Sweeping? && id in s.jobs
  {
    var Sweeping(c, now, done) := s.claimers[caller];
    if KeyTaken(s.jobs, c) then s.(claimers := s.claimers[caller := DuplicateKey(c)])
    else s.(jobs := s.jobs[id := LeaseRow(s.jobs[id], c, now)],
            claimers := s.claimers[caller := Holding(c, now, id, s.jobs[id].leaseMs)],
            holders := s.holders[id := caller], log := s.log + [Took(id, caller)])
  }

  function SecureStep(s: System, caller: nat): System
    requires caller in s.claimers && s.claimers[caller].Holding?
  {
    var Holding(c, now, id, leaseMs) := s.claimers[caller];
    if id in s.jobs && s.jobs[id].status == Leased && s.jobs[id].leaseHash.None? then
      s.(jobs := s.jobs[id := SecureRow(s.jobs[id], LeaseToken(c), leaseMs, now)],
         claimers := s.claimers[caller := Answered(c, Some(id))],
         log := s.log + [Secured(id, LeaseToken(c)), Delivered(id, LeaseToken(c))])
    else s.(claimers := s.claimers[caller := Answered(c, None)])
  }

  // ------------------------------------------------------------- reports

  function ReadStep(s: System, caller: nat): System
    requires caller in s.reporters && s.reporters[caller].Reporting?
  {
    var r := s.reporters[caller].r;
    var outcome := if r.jobId in s.jobs && s.jobs[r.jobId].userId == r.userId then CompletionFor(s.jobs[r.jobId], r) else NotFound;
    s.(reporters := s.reporters[caller := if outcome.Accept? then MayRecord(r, LeaseHash(s.jobs[r.jobId].id, r.token)) else Reported(r, outcome)])
  }

  function RecordStep(s: System, caller: nat): System
    requires caller in s.reporters && s.reporters[caller].MayRecord?
  {
    var MayRecord(r, read) := s.reporters[caller];
    if r.jobId in s.jobs && s.jobs[r.jobId].userId == r.userId && Accepted(s.jobs[r.jobId].status) && s.jobs[r.jobId].leaseHash == Some(read) then
      var after := Finish(s.jobs[r.jobId], r);
      s.(jobs := s.jobs[r.jobId := after], reporters := s.reporters[caller := Reported(r, Accept(after.status))],
         log := s.log + [Recorded(r.jobId, r.token, r)])
    else s.(reporters := s.reporters[caller := LeaseChanged(r)])
  }

  /** The wait read the job earlier: it keeps whatever deadlines it saw then. */
  function WaitUncertainRow(j: Job, seenUncertain: Option<int>, seenReconcile: Option<int>, now: int): Job {
    if !Accepted(j.status) then j
    else j.(status := OutcomeUnknown, error := Some(WAIT_UNCERTAIN), uncertainAt := Some(OrElse(seenUncertain, now)),
            reconcileExpiresAt := Some(OrElse(seenReconcile, now + RECONCILE_MS)))
  }

  function WaitQueuedRow(j: Job, now: int): Job {
    if j.status != Queued then j
    else j.(status := Expired, error := Some(WAIT_QUEUED), arguments := None, result := None, purgedAt := Some(now))
  }

  // ---------------------------------------------------------- the system

  ghost predicate Enabled(s: System, op: Op) {
    match op
    case Insert(job) => job.id !in s.ids && job == NewJob(job.id, job.userId, job.tenantKey, job.environmentKey, OrElse(job.arguments, ""), job.expiresAt - job.createdAt, job.leaseMs, job.createdAt)
    case Remove(id) => id in s.jobs
    case StartClaim(caller, c, now) => caller !in s.claimers
    case Lookup(caller, found) =>
      && caller in s.claimers && s.claimers[caller].Starting?
      && (if found.Some? then found.value in s.jobs && HeldByKey(s.jobs[found.value], s.claimers[caller].c)
          else !KeyTaken(s.jobs, s.claimers[caller].c))
    case SweepStep(caller) => caller in s.claimers && s.claimers[caller].Sweeping? && s.claimers[caller].done < 3
    case Take(caller, id) =>
      caller in s.claimers && s.claimers[caller].Sweeping? && s.claimers[caller].done == 3 && Oldest(s.jobs, s.claimers[caller].c, id)
    case TakeNothing(caller) =>
      caller in s.claimers && s.claimers[caller].Sweeping? && s.claimers[caller].done == 3 && NothingClaimable(s.jobs, s.claimers[caller].c)
    case Secure(caller) => caller in s.claimers && s.claimers[caller].Holding?
    case StartReport(caller, r) => caller !in s.reporters
    case ReadJob(caller) => caller in s.reporters && s.reporters[caller].Reporting?
    case Record(caller) => caller in s.reporters && s.reporters[caller].MayRecord?
    case WaitUncertain(id, _, _, _) => id in s.jobs
    case WaitQueued(id, _) => id in s.jobs
    case DropPayload(id, _) => id in s.jobs && Terminal(s.jobs[id].status)
  }

  ghost function Apply(s: System, op: Op): System
    requires Enabled(s, op)
  {
    match op
    case Insert(job) => s.(jobs := s.jobs[job.id := job], ids := s.ids + {job.id})
    case Remove(id) => s.(jobs := s.jobs - {id})
    case StartClaim(caller, c, now) =>
      s.(claimers := s.claimers[caller := if c.key.Some? then Starting(c, now) else Sweeping(c, now, 0)])
    case Lookup(caller, found) => LookupStep(s, caller, found)
    case SweepStep(caller) =>
      var Sweeping(c, now, done) := s.claimers[caller];
      s.(jobs := SweepJobs(s.jobs, done, now), claimers := s.claimers[caller := Sweeping(c, now, done + 1)])
    case Take(caller, id) => TakeStep(s, caller, id)
    case TakeNothing(caller) => s.(claimers := s.claimers[caller := Answered(s.claimers[caller].c, None)])
    case Secure(caller) => SecureStep(s, caller)
    case StartReport(caller, r) => s.(reporters := s.reporters[caller := Reporting(r)])
    case ReadJob(caller) => ReadStep(s, caller)
    case Record(caller) => RecordStep(s, caller)
    case WaitUncertain(id, u, rc, now) => s.(jobs := s.jobs[id := WaitUncertainRow(s.jobs[id], u, rc, now)])
    case WaitQueued(id, now) => s.(jobs := s.jobs[id := WaitQueuedRow(s.jobs[id], now)])
    case DropPayload(id, now) => s.(jobs := s.jobs[id := Discard(s.jobs[id], now)])
  }

  const EMPTY := System(map[], map[], map[], {}, map[], [])

  ghost predicate Next(s: System, t: System) {
    exists op :: Enabled(s, op) && t == Apply(s, op)
  }

  ghost predicate Trace(states: seq<System>) {
    && states != [] && states[0] == EMPTY
    && forall i :: 0 < i < |states| ==> Next(states[i - 1], states[i])
  }

  // ----------------------------------------------------------- invariant

  predicate Known(s: System, id: string) {
    id in s.holders && s.holders[id] in s.claimers && id in s.ids
  }

  /** The one token of a job that was leased. */
  function TokenOf(s: System, id: string): Token
    requires Known(s, id)
  {
    LeaseToken(s.claimers[s.holders[id]].c)
  }

  predicate Untaken(j: Job) {
    j.status == Queued || j.status == Expired
  }

  predicate Finished(j: Job) {
    j.status == Completed || j.status == Failed
  }

  predicate IsRecorded(log: seq<Event>, id: string) {
    exists i :: 0 <= i < |log| && log[i].Recorded? && log[i].jobId == id
  }

  predicate IsSecured(log: seq<Event>, id: string) {
    exists i :: 0 <= i < |log| && log[i].Secured? && log[i].jobId == id
  }

  predicate RowInv(s: System, id: string, j: Job) {
    && j.id == id && id in s.ids
    && (Untaken(j) ==> id !in s.holders && j.claimKey.None? && j.leaseHash.None?)
    && (!Untaken(j) ==> Known(s, id) && j.userId == s.claimers[s.holders[id]].c.userId)
    && (Accepted(j.status) || Finished(j) ==> Known(s, id) && j.claimKey == s.claimers[s.holders[id]].c.key)
    && (j.status == ExpiredUnreconciled ==> j.claimKey.None?)
    && (j.leaseHash.Some? ==> Accepted(j.status) && Known(s, id) && j.leaseHash.value == LeaseHash(id, TokenOf(s, id)))
    && (j.completionHash.Some? ==> Finished(j))
    && (!Terminal(j.status) ==> j.purgedAt.None?)
    && (j.status == Leased ==> j.leaseExpiresAt.Some?) && (j.status == OutcomeUnknown ==> j.reconcileExpiresAt.Some?)
    && (Finished(j) ==> IsRecorded(s.log, id))
    && (Accepted(j.status) ==> (j.leaseHash.Some? <==> IsSecured(s.log, id)))
  }

  /** It carries the reported outcome, the result until the payload is dropped. */
  predicate Carries(j: Job, r: Report) {
    && j.status == (if r.failed then Failed else Completed) && j.error == r.error
    && j.result == (if j.purgedAt.Some? then None else r.result)
    && j.completionHash == Some(LeaseHash(j.id, r.token))
  }

  predicate JobsInv(s: System) {
    forall id :: id in s.jobs ==> RowInv(s, id, s.jobs[id])
  }

  predicate HoldersInv(s: System) {
    forall id :: id in s.holders ==> Known(s, id)
  }

  predicate ClaimersInv(s: System) {
    forall k :: k in s.claimers && s.claimers[k].Holding? ==>
      && s.claimers[k].jobId in s.holders && s.holders[s.claimers[k].jobId] == k
      && (s.claimers[k].jobId in s.jobs ==> s.jobs[s.claimers[k].jobId].leaseMs == s.claimers[k].leaseMs)
      && forall i :: 0 <= i < |s.log| ==> !(s.log[i].Secured? && s.log[i].jobId == s.claimers[k].jobId)
  }

  predicate EventInv(s: System, e: Event) {
    && Known(s, e.jobId)
    && (!e.Took? ==> e.token == TokenOf(s, e.jobId))
    && (e.Recorded? && e.jobId in s.jobs ==> Carries(s.jobs[e.jobId], e.r))
  }

  predicate LogInv(s: System) {
    forall i :: 0 <= i < |s.log| ==> EventInv(s, s.log[i])
  }

  predicate SameKind(a: Event, b: Event) {
    (a.Took? && b.Took?) || (a.Secured? && b.Secured?) || (a.Recorded? && b.Recorded?)
  }

  /** A job is leased, secured and completed at most once each. */
  predicate OnceEach(log: seq<Event>) {
    forall i, k :: 0 <= i < k < |log| && log[i].jobId == log[k].jobId ==> !SameKind(log[i], log[k])
  }

  predicate UniqueKeys(jobs: map<string, Job>) {
    forall a, b :: a in jobs && b in jobs && a != b && jobs[a].userId == jobs[b].userId && jobs[a].claimKey.Some?
                   ==> jobs[a].claimKey != jobs[b].claimKey
  }

  predicate Inv(s: System) {
    JobsInv(s) && HoldersInv(s) && ClaimersInv(s) && LogInv(s) && OnceEach(s.log) && UniqueKeys(s.jobs)
  }

  /** Nothing the invariant says about history is undone by a claimer moving on. */
  predicate SameClaims(s: System, t: System) {
    && s.ids <= t.ids && s.log <= t.log
    && (forall k :: k in s.claimers ==> k in t.claimers && t.claimers[k].c == s.claimers[k].c)
    && (forall id :: id in s.holders ==> id in t.holders && t.holders[id] == s.holders[id])
  }

  lemma RowSurvives(s: System, t: System, id: string, j: Job)
    requires RowInv(s, id, j) && SameClaims(s, t) && (id in t.holders ==> id in s.holders)
    requires forall i :: |s.log| <= i < |t.log| && t.log[i].Secured? ==> t.log[i].jobId != id
    ensures RowInv(t, id, j)
  {
    if IsRecorded(s.log, id) {
      var i :| 0 <= i < |s.log| && s.log[i].Recorded? && s.log[i].jobId == id;
      assert t.log[i] == s.log[i];
    }
    if IsSecured(s.log, id) {
      var i :| 0 <= i < |s.log| && s.log[i].Secured? && s.log[i].jobId == id;
      assert t.log[i] == s.log[i];
    }
  }

  lemma EventSurvives(s: System, t: System, e: Event)
    requires EventInv(s, e) && SameClaims(s, t)
    requires e.Recorded? && e.jobId in t.jobs ==> Carries(t.jobs[e.jobId], e.r)
    ensures EventInv(t, e)
  {
  }

  // -------------------------------------------------- steps of one job

  /** What an unlogged step may do to a row: claim fields only shrink, and a
      finished row keeps its outcome until its payload is dropped. */
  predicate Mild(a: Job, b: Job) {
    && b.id == a.id && b.userId == a.userId && b.leaseMs == a.leaseMs
    && (b.claimKey == a.claimKey || b.claimKey.None?)
    && (Finished(a) ==> b.status == a.status && b.error == a.error && b.completionHash == a.completionHash
                        && ((b.result == a.result && b.purgedAt == a.purgedAt) || (b.result.None? && b.purgedAt.Some?)))
  }

  lemma SweepMild(s: System, id: string, j: Job, done: nat, now: int)
    requires RowInv(s, id, j)
    ensures RowInv(s, id, SweepJob(j, done, now)) && Mild(j, SweepJob(j, done, now))
  {
  }

  lemma WaitMild(s: System, id: string, j: Job, u: Option<int>, rc: Option<int>, now: int)
    requires RowInv(s, id, j)
    ensures RowInv(s, id, WaitUncertainRow(j, u, rc, now)) && Mild(j, WaitUncertainRow(j, u, rc, now))
    ensures RowInv(s, id, WaitQueuedRow(j, now)) && Mild(j, WaitQueuedRow(j, now))
    ensures Terminal(j.status) ==> RowInv(s, id, Discard(j, now)) && Mild(j, Discard(j, now))
  {
  }

  lemma MildLog(s: System, t: System)
    requires Inv(s) && t == s.(jobs := t.jobs) && t.jobs.Keys <= s.jobs.Keys
    requires forall id :: id in t.jobs ==> Mild(s.jobs[id], t.jobs[id])
    ensures LogInv(t)
  {
    forall i | 0 <= i < |t.log| ensures EventInv(t, t.log[i]) { EventSurvives(s, t, s.log[i]); }
  }

  /** Only rows change, each mildly. */
  lemma InvMild(s: System, t: System)
    requires Inv(s) && t == s.(jobs := t.jobs) && t.jobs.Keys <= s.jobs.Keys
    requires forall id :: id in t.jobs ==> RowInv(s, id, t.jobs[id]) && Mild(s.jobs[id], t.jobs[id])
    ensures Inv(t)
  {
    forall id | id in t.jobs ensures RowInv(t, id, t.jobs[id]) { RowSurvives(s, t, id, t.jobs[id]); }
    MildLog(s, t);
  }

  /** A claimer moves on without holding anything new. */
  lemma InvCaller(s: System, caller: nat, next: Claimer)
    requires Inv(s) && !next.Holding? && (caller in s.claimers ==> next.c == s.claimers[caller].c)
    ensures Inv(s.(claimers := s.claimers[caller := next]))
  {
    var t := s.(claimers := s.claimers[caller := next]);
    forall id | id in t.jobs ensures RowInv(t, id, t.jobs[id]) { RowSurvives(s, t, id, t.jobs[id]); }
    forall i | 0 <= i < |t.log| ensures EventInv(t, t.log[i]) { EventSurvives(s, t, s.log[i]); }
  }

  lemma InvReporter(s: System, reporters: map<nat, Reporter>)
    requires Inv(s)
    ensures Inv(s.(reporters := reporters))
  {
    var t := s.(reporters := reporters);
    forall id | id in t.jobs ensures RowInv(t, id, t.jobs[id]) { RowSurvives(s, t, id, t.jobs[id]); }
    forall i | 0 <= i < |t.log| ensures EventInv(t, t.log[i]) { EventSurvives(s, t, s.log[i]); }
  }

  lemma InvDelivered(s: System, id: string, token: Token)
    requires Inv(s) && Known(s, id) && token == TokenOf(s, id)
    ensures Inv(s.(log := s.log + [Delivered(id, token)]))
  {
    var t := s.(log := s.log + [Delivered(id, token)]);
    forall x | x in t.jobs ensures RowInv(t, x, t.jobs[x]) { RowSurvives(s, t, x, t.jobs[x]); }
    forall i | 0 <= i < |t.log| ensures EventInv(t, t.log[i]) {
      if i < |s.log| { EventSurvives(s, t, s.log[i]); }
    }
  }

  lemma InvRow(s: System, id: string, row: Job)
    requires Inv(s) && id in s.jobs && RowInv(s, id, row) && Mild(s.jobs[id], row)
    ensures Inv(s.(jobs := s.jobs[id := row]))
  {
    InvMild(s, s.(jobs := s.jobs[id := row]));
  }

  // ------------------------------------------------- each step keeps it

  lemma InvInsert(s: System, job: Job)
    requires Inv(s) && Enabled(s, Insert(job))
    ensures Inv(Apply(s, Insert(job)))
  {
    var t := Apply(s, Insert(job));
    forall id | id in t.jobs ensures RowInv(t, id, t.jobs[id]) {
      if id != job.id { RowSurvives(s, t, id, s.jobs[id]); }
    }
    forall i | 0 <= i < |t.log| ensures EventInv(t, t.log[i]) { EventSurvives(s, t, s.log[i]); }
  }

  lemma InvLookup(s: System, caller: nat, found: Option<string>)
    requires Inv(s) && Enabled(s, Lookup(caller, found))
    ensures Inv(Apply(s, Lookup(caller, found)))
  {
    var Starting(c, now) := s.claimers[caller];
    if found.None? {
      InvCaller(s, caller, Sweeping(c, now, 0));
    } else if s.jobs[found.value].status == Leased {
      assert RowInv(s, found.value, s.jobs[found.value]);
      InvCaller(s, caller, Answered(c, found));
      InvDelivered(s.(claimers := s.claimers[caller := Answered(c, found)]), found.value, LeaseToken(c));
    } else {
      InvCaller(s, caller, Answered(c, None));
    }
  }

  lemma InvSweepJobs(s: System, done: nat, now: int)
    requires Inv(s)
    ensures Inv(s.(jobs := SweepJobs(s.jobs, done, now)))
  {
    var t := s.(jobs := SweepJobs(s.jobs, done, now));
    forall id | id in t.jobs ensures RowInv(s, id, t.jobs[id]) && Mild(s.jobs[id], t.jobs[id]) {
      assert RowInv(s, id, s.jobs[id]);
      SweepMild(s, id, s.jobs[id], done, now);
    }
    InvMild(s, t);
  }

  lemma InvSwept(s: System, caller: nat)
    requires Inv(s) && caller in s.claimers && s.claimers[caller].Sweeping? && s.claimers[caller].done < 3
    ensures var Sweeping(c, now, done) := s.claimers[caller];
            Inv(s.(jobs := SweepJobs(s.jobs, done, now), claimers := s.claimers[caller := Sweeping(c, now, done + 1)]))
  {
    var Sweeping(c, now, done) := s.claimers[caller];
    InvSweepJobs(s, done, now);
    InvCaller(s.(jobs := SweepJobs(s.jobs, done, now)), caller, Sweeping(c, now, done + 1));
  }

  lemma InvSweep(s: System, caller: nat)
    requires Inv(s) && caller in s.claimers && s.claimers[caller].Sweeping? && s.claimers[caller].done < 3
    ensures Inv(Apply(s, SweepStep(caller)))
  {
    InvSwept(s, caller);
  }

  lemma TakeRow(s: System, caller: nat, id: string)
    requires Inv(s) && Enabled(s, Take(caller, id)) && !KeyTaken(s.jobs, s.claimers[caller].c)
    ensures var t := TakeStep(s, caller, id); RowInv(t, id, t.jobs[id])
    ensures id !in s.holders && s.jobs[id].leaseHash.None?
  {
    assert RowInv(s, id, s.jobs[id]);
  }

  /** No event is about a job that was never leased. */
  lemma NoEventYet(s: System, id: string)
    requires LogInv(s) && id !in s.holders
    ensures forall i :: 0 <= i < |s.log| ==> s.log[i].jobId != id
  {
    forall i | 0 <= i < |s.log| ensures s.log[i].jobId != id { assert EventInv(s, s.log[i]); }
  }

  lemma TakeKeys(jobs: map<string, Job>, c: Claim, now: int, id: string)
    requires UniqueKeys(jobs) && id in jobs && !KeyTaken(jobs, c) && Claimable(jobs[id], c)
    ensures UniqueKeys(jobs[id := LeaseRow(jobs[id], c, now)])
  {
    var after := jobs[id := LeaseRow(jobs[id], c, now)];
    forall a, b | a in after && b in after && a != b && after[a].userId == after[b].userId && after[a].claimKey.Some?
      ensures after[a].claimKey != after[b].claimKey
    {
      if a == id { assert !HeldByKey(jobs[b], c); }
      if b == id { assert !HeldByKey(jobs[a], c); }
    }
  }

  lemma TakeJobs(s: System, caller: nat, id: string)
    requires Inv(s) && Enabled(s, Take(caller, id)) && !KeyTaken(s.jobs, s.claimers[caller].c)
    ensures JobsInv(TakeStep(s, caller, id))
  {
    var t := TakeStep(s, caller, id);
    TakeRow(s, caller, id);
    forall x | x in t.jobs ensures RowInv(t, x, t.jobs[x]) {
      if x != id { RowSurvives(s, t, x, s.jobs[x]); }
    }
  }

  lemma TakeLog(s: System, caller: nat, id: string)
    requires Inv(s) && Enabled(s, Take(caller, id)) && !KeyTaken(s.jobs, s.claimers[caller].c)
    ensures LogInv(TakeStep(s, caller, id)) && OnceEach(TakeStep(s, caller, id).log)
  {
    var t := TakeStep(s, caller, id);
    TakeRow(s, caller, id);
    NoEventYet(s, id);
    forall i | 0 <= i < |t.log| ensures EventInv(t, t.log[i]) {
      if i < |s.log| { EventSurvives(s, t, s.log[i]); }
    }
  }

  lemma TakeClaimers(s: System, caller: nat, id: string)
    requires Inv(s) && Enabled(s, Take(caller, id)) && !KeyTaken(s.jobs, s.claimers[caller].c)
    ensures ClaimersInv(TakeStep(s, caller, id)) && HoldersInv(TakeStep(s, caller, id))
  {
    TakeRow(s, caller, id);
    NoEventYet(s, id);
  }

  lemma InvTake(s: System, caller: nat, id: string)
    requires Inv(s) && Enabled(s, Take(caller, id))
    ensures Inv(TakeStep(s, caller, id))
  {
    var c := s.claimers[caller].c;
    if KeyTaken(s.jobs, c) {
      InvCaller(s, caller, DuplicateKey(c));
    } else {
      TakeJobs(s, caller, id);
      TakeLog(s, caller, id);
      TakeClaimers(s, caller, id);
      TakeKeys(s.jobs, c, s.claimers[caller].now, id);
    }
  }

  predicate Securable(s: System, caller: nat) {
    && caller in s.claimers && s.claimers[caller].Holding?
    && var id := s.claimers[caller].jobId;
    id in s.jobs && s.jobs[id].status == Leased && s.jobs[id].leaseHash.None?
  }

  function Securing(s: System, caller: nat): System
    requires Securable(s, caller)
  {
    var Holding(c, now, id, leaseMs) := s.claimers[caller];
    s.(jobs := s.jobs[id := SecureRow(s.jobs[id], LeaseToken(c), leaseMs, now)],
       claimers := s.claimers[caller := Answered(c, Some(id))], log := s.log + [Secured(id, LeaseToken(c))])
  }

  lemma SecuredRow(s: System, caller: nat)
    requires Inv(s) && Securable(s, caller)
    ensures var Holding(c, now, id, leaseMs) := s.claimers[caller];
            var t := Securing(s, caller);
            && Known(s, id) && TokenOf(s, id) == LeaseToken(c) && Known(t, id) && TokenOf(t, id) == LeaseToken(c)
            && RowInv(t, id, t.jobs[id])
  {
    var id := s.claimers[caller].jobId;
    assert Known(s, id) && RowInv(s, id, s.jobs[id]);
    var t := Securing(s, caller);
    assert t.log[|s.log|].Secured? && t.log[|s.log|].jobId == id;
  }

  lemma SecuredIsLease(s: System, caller: nat)
    requires Inv(s) && Securable(s, caller)
    ensures var Holding(c, now, id, leaseMs) := s.claimers[caller];
            SecureRow(s.jobs[id], LeaseToken(c), leaseMs, now) == Lease(s.jobs[id], c, now)
  {
    var id := s.claimers[caller].jobId;
    assert Known(s, id) && RowInv(s, id, s.jobs[id]);
  }

  lemma SecuredLog(s: System, caller: nat)
    requires Inv(s) && Securable(s, caller)
    ensures LogInv(Securing(s, caller)) && OnceEach(Securing(s, caller).log)
  {
    var t := Securing(s, caller);
    SecuredRow(s, caller);
    forall i | 0 <= i < |t.log| ensures EventInv(t, t.log[i]) {
      if i < |s.log| { EventSurvives(s, t, s.log[i]); }
    }
  }

  lemma InvSecuring(s: System, caller: nat)
    requires Inv(s) && Securable(s, caller)
    ensures Inv(Securing(s, caller))
  {
    var t := Securing(s, caller);
    SecuredRow(s, caller);
    SecuredLog(s, caller);
    forall x | x in t.jobs ensures RowInv(t, x, t.jobs[x]) {
      if x != s.claimers[caller].jobId { RowSurvives(s, t, x, s.jobs[x]); }
    }
  }

  lemma InvSecured(s: System, caller: nat)
    requires Inv(s) && Securable(s, caller)
    ensures Inv(SecureStep(s, caller))
  {
    var Holding(c, now, id, leaseMs) := s.claimers[caller];
    var t := Securing(s, caller);
    SecuredRow(s, caller);
    InvSecuring(s, caller);
    InvDelivered(t, id, LeaseToken(c));
    assert SecureStep(s, caller).log == t.log + [Delivered(id, LeaseToken(c))];
  }

  lemma InvSecure(s: System, caller: nat)
    requires Inv(s) && Enabled(s, Secure(caller))
    ensures Inv(Apply(s, Secure(caller)))
  {
    var Holding(c, now, id, leaseMs) := s.claimers[caller];
    if id in s.jobs && s.jobs[id].status == Leased && s.jobs[id].leaseHash.None? {
      InvSecured(s, caller);
    } else {
      InvCaller(s, caller, Answered(c, None));
    }
  }

  /** The conditional write can only match with the job's own token. */
  predicate ReporterInv(x: Reporter) {
    x.MayRecord? ==> x.read == LeaseHash(x.r.jobId, x.r.token)
  }

  predicate ReportersInv(s: System) {
    forall k :: k in s.reporters ==> ReporterInv(s.reporters[k])
  }

  predicate Recordable(s: System, r: Report, read: LeaseHash) {
    && r.jobId in s.jobs && s.jobs[r.jobId].userId == r.userId
    && Accepted(s.jobs[r.jobId].status) && s.jobs[r.jobId].leaseHash == Some(read)
  }

  function Finishing(s: System, r: Report): System
    requires r.jobId in s.jobs
  {
    s.(jobs := s.jobs[r.jobId := Finish(s.jobs[r.jobId], r)], log := s.log + [Recorded(r.jobId, r.token, r)])
  }

  lemma RecordedRow(s: System, r: Report)
    requires Inv(s) && Recordable(s, r, LeaseHash(r.jobId, r.token))
    ensures var row := Finish(s.jobs[r.jobId], r);
            && Known(s, r.jobId) && r.token == TokenOf(s, r.jobId)
            && RowInv(Finishing(s, r), r.jobId, row) && Carries(row, r) && row.userId == s.jobs[r.jobId].userId
            && row.claimKey == s.jobs[r.jobId].claimKey
  {
    assert RowInv(s, r.jobId, s.jobs[r.jobId]);
    var log := Finishing(s, r).log;
    assert log[|s.log|].Recorded? && log[|s.log|].jobId == r.jobId;
  }

  lemma NotRecordedYet(s: System, id: string)
    requires Inv(s) && id in s.jobs && !Finished(s.jobs[id])
    ensures forall i :: 0 <= i < |s.log| ==> !(s.log[i].Recorded? && s.log[i].jobId == id)
  {
    forall i | 0 <= i < |s.log| ensures !(s.log[i].Recorded? && s.log[i].jobId == id) {
      assert EventInv(s, s.log[i]);
    }
  }

  lemma FinishedLog(s: System, r: Report)
    requires Inv(s) && Recordable(s, r, LeaseHash(r.jobId, r.token))
    ensures LogInv(Finishing(s, r)) && OnceEach(Finishing(s, r).log)
  {
    var t := Finishing(s, r);
    RecordedRow(s, r);
    NotRecordedYet(s, r.jobId);
    forall i | 0 <= i < |t.log| ensures EventInv(t, t.log[i]) {
      if i < |s.log| { EventSurvives(s, t, s.log[i]); }
    }
  }

  lemma InvFinished(s: System, r: Report)
    requires Inv(s) && Recordable(s, r, LeaseHash(r.jobId, r.token))
    ensures Inv(Finishing(s, r))
  {
    var t := Finishing(s, r);
    RecordedRow(s, r);
    FinishedLog(s, r);
    forall id | id in t.jobs ensures RowInv(t, id, t.jobs[id]) {
      if id != r.jobId { RowSurvives(s, t, id, s.jobs[id]); }
    }
  }

  lemma InvRecord(s: System, caller: nat)
    requires Inv(s) && ReportersInv(s) && caller in s.reporters && s.reporters[caller].MayRecord?
    ensures Inv(RecordStep(s, caller))
  {
    var MayRecord(r, read) := s.reporters[caller];
    assert ReporterInv(s.reporters[caller]);
    if Recordable(s, r, read) {
      InvFinished(s, r);
      InvReporter(Finishing(s, r), RecordStep(s, caller).reporters);
    } else {
      InvReporter(s, RecordStep(s, caller).reporters);
    }
  }

  predicate MovesClaim(op: Op) {
    op.Lookup? || op.SweepStep? || op.Take? || op.TakeNothing? || op.Secure?
  }

  lemma InvClaims(s: System, op: Op)
    requires Inv(s) && Enabled(s, op) && (op.StartClaim? || MovesClaim(op))
    ensures Inv(Apply(s, op))
  {
    match op {
      case StartClaim(caller, c, now) => InvCaller(s, caller, if c.key.Some? then Starting(c, now) else Sweeping(c, now, 0));
      case Lookup(caller, found) => InvLookup(s, caller, found);
      case SweepStep(caller) => InvSweep(s, caller);
      case Take(caller, id) => InvTake(s, caller, id);
      case TakeNothing(caller) => InvCaller(s, caller, Answered(s.claimers[caller].c, None));
      case Secure(caller) => InvSecure(s, caller);
    }
  }

  lemma InvApply(s: System, op: Op)
    requires Inv(s) && ReportersInv(s) && Enabled(s, op)
    ensures Inv(Apply(s, op))
  {
    match op {
      case Insert(job) => InvInsert(s, job);
      case Remove(id) => InvMild(s, Apply(s, op));
      case StartReport(caller, r) => InvReporter(s, Apply(s, op).reporters);
      case ReadJob(caller) => InvReporter(s, Apply(s, op).reporters);
      case Record(caller) => InvRecord(s, caller);
      case WaitUncertain(id, u, rc, now) => WaitMild(s, id, s.jobs[id], u, rc, now); InvRow(s, id, WaitUncertainRow(s.jobs[id], u, rc, now));
      case WaitQueued(id, now) => WaitMild(s, id, s.jobs[id], None, None, now); InvRow(s, id, WaitQueuedRow(s.jobs[id], now));
      case DropPayload(id, now) => WaitMild(s, id, s.jobs[id], None, None, now); InvRow(s, id, Discard(s.jobs[id], now));
      case _ => InvClaims(s, op);
    }
  }

  lemma ReportersKeep(s: System, op: Op)
    requires Inv(s) && ReportersInv(s) && Enabled(s, op)
    ensures ReportersInv(Apply(s, op))
  {
    if op.ReadJob? {
      var r := s.reporters[op.caller].r;
      if r.jobId in s.jobs { assert RowInv(s, r.jobId, s.jobs[r.jobId]); }
    }
  }

  lemma {:induction false} InvTrace(states: seq<System>)
    requires Trace(states)
    ensures Inv(states[|states| - 1]) && ReportersInv(states[|states| - 1])
  {
    if |states| > 1 {
      var n := |states| - 1;
      InvTrace(states[..n]);
      var op :| Enabled(states[n - 1], op) && states[n] == Apply(states[n - 1], op);
      InvApply(states[n - 1], op);
      ReportersKeep(states[n - 1], op);
    }
  }

  // ------------------------------------------------------- main results

  /** However claims, reports, timeouts and removals interleave: a job is leased
      at most once, its lease secured at most once, its outcome recorded at most
      once. */
  lemma LeasedSecuredRecordedOnce(states: seq<System>, i: nat, k: nat)
    requires Trace(states)
    requires var log := states[|states| - 1].log; i < |log| && k < |log| && log[i].jobId == log[k].jobId && SameKind(log[i], log[k])
    ensures i == k
  {
    InvTrace(states);
  }

  /** At any instant at most one job of a user, finished or not, holds a given claim
      key. So two jobs accepted at the same time were never delivered under one
      derived token. */
  lemma OneJobPerClaim(states: seq<System>, a: string, b: string)
    requires Trace(states)
    requires var s := states[|states| - 1];
             a in s.jobs && b in s.jobs && a != b && s.jobs[a].userId == s.jobs[b].userId && s.jobs[a].claimKey.Some?
    ensures var s := states[|states| - 1];
            && s.jobs[a].claimKey != s.jobs[b].claimKey
            && (Accepted(s.jobs[a].status) && Accepted(s.jobs[b].status) ==>
                  Known(s, a) && Known(s, b) && TokenOf(s, a) != TokenOf(s, b))
  {
    InvTrace(states);
    var s := states[|states| - 1];
    assert RowInv(s, a, s.jobs[a]) && RowInv(s, b, s.jobs[b]);
  }

  /** Every envelope delivered for a job, by the claim that leased it or by a
      retry that found it, carries one token, and only that token's holder ever
      records an outcome. */
  lemma DeliveredTokensAgree(states: seq<System>, i: nat, k: nat)
    requires Trace(states)
    requires var log := states[|states| - 1].log;
             && i < |log| && k < |log| && log[i].jobId == log[k].jobId
             && log[i].Delivered? && (log[k].Delivered? || log[k].Recorded?)
    ensures var log := states[|states| - 1].log; log[i].token == log[k].token
  {
    InvTrace(states);
    var s := states[|states| - 1];
    assert EventInv(s, s.log[i]) && EventInv(s, s.log[k]);
  }

  /** A finished job carries exactly what the one report recorded for it said, the
      result until a wait takes it. */
  lemma RecordedOutcomeStays(states: seq<System>, id: string)
    requires Trace(states) && id in states[|states| - 1].jobs
    ensures var s := states[|states| - 1];
            && (s.jobs[id].status == Completed || s.jobs[id].status == Failed <==> IsRecorded(s.log, id))
            && forall i :: 0 <= i < |s.log| && s.log[i].Recorded? && s.log[i].jobId == id ==> Carries(s.jobs[id], s.log[i].r)
  {
    InvTrace(states);
    var s := states[|states| - 1];
    assert RowInv(s, id, s.jobs[id]);
    forall i | 0 <= i < |s.log| && s.log[i].Recorded? && s.log[i].jobId == id ensures Carries(s.jobs[id], s.log[i].r) {
      assert EventInv(s, s.log[i]);
    }
  }

  /** What the history owes a report: the job's one recorded report again, a chance to
      record its own to the holder of a secured lease, or a refusal. */
  ghost predicate Owed(s: System, r: Report, answer: Reporter) {
    if r.jobId !in s.jobs || s.jobs[r.jobId].userId != r.userId then answer == Reported(r, NotFound)
    else if i :| 0 <= i < |s.log| && s.log[i].Recorded? && s.log[i].jobId == r.jobId then
      answer == Reported(r, if r.token == s.log[i].r.token then Acknowledged(if s.log[i].r.failed then Failed else Completed) else NotLeased)
    else if !Accepted(s.jobs[r.jobId].status) then answer == Reported(r, NotLeased)
    else if IsSecured(s.log, r.jobId) && Known(s, r.jobId) && r.token == TokenOf(s, r.jobId)
      then answer == MayRecord(r, LeaseHash(r.jobId, r.token))
    else answer == Reported(r, WrongLease)
  }

  lemma FinishedIffRecorded(s: System, id: string)
    requires Inv(s) && id in s.jobs
    ensures IsRecorded(s.log, id) <==> Finished(s.jobs[id])
    ensures forall i :: 0 <= i < |s.log| && s.log[i].Recorded? && s.log[i].jobId == id ==> Carries(s.jobs[id], s.log[i].r)
  {
    assert RowInv(s, id, s.jobs[id]);
    forall i | 0 <= i < |s.log| && s.log[i].Recorded? && s.log[i].jobId == id ensures Carries(s.jobs[id], s.log[i].r) {
      assert EventInv(s, s.log[i]);
    }
  }

  /** In every interleaving a report is answered as its history owes. */
  lemma ReportAnswered(states: seq<System>, caller: nat)
    requires Trace(states) && Enabled(states[|states| - 1], ReadJob(caller))
    ensures var s := states[|states| - 1];
            var t := Apply(s, ReadJob(caller));
            t == s.(reporters := t.reporters) && caller in t.reporters && Owed(s, s.reporters[caller].r, t.reporters[caller])
  {
    InvTrace(states);
    var s := states[|states| - 1];
    var r := s.reporters[caller].r;
    if r.jobId in s.jobs {
      FinishedIffRecorded(s, r.jobId);
      assert RowInv(s, r.jobId, s.jobs[r.jobId]);
    }
  }

  /** And one that may be recorded is, exactly if its job is then still there and open. */
  lemma ReportRecorded(states: seq<System>, caller: nat)
    requires Trace(states) && Enabled(states[|states| - 1], Record(caller))
    ensures var s := states[|states| - 1];
            var t, r := Apply(s, Record(caller)), s.reporters[caller].r;
            if r.jobId in s.jobs && s.jobs[r.jobId].userId == r.userId && Accepted(s.jobs[r.jobId].status)
               && IsSecured(s.log, r.jobId) && Known(s, r.jobId) && r.token == TokenOf(s, r.jobId)
            then t.log == s.log + [Recorded(r.jobId, r.token, r)] && r.jobId in t.jobs && Carries(t.jobs[r.jobId], r)
                 && caller in t.reporters && t.reporters[caller] == Reported(r, Accept(if r.failed then Failed else Completed))
            else t == s.(reporters := s.reporters[caller := LeaseChanged(r)])
  {
    InvTrace(states);
    var s := states[|states| - 1];
    var r := s.reporters[caller].r;
    assert ReporterInv(s.reporters[caller]);
    if r.jobId in s.jobs { assert RowInv(s, r.jobId, s.jobs[r.jobId]); }
  }

  /** A claim that took a job and finds it still leased and unsecured makes the lease the
      file store would, and is handed the job. */
  lemma SecuredAsLease(states: seq<System>, caller: nat)
    requires Trace(states) && Securable(states[|states| - 1], caller)
    ensures var s := states[|states| - 1];
            var t, id := SecureStep(s, caller), s.claimers[caller].jobId;
            && t.jobs == s.jobs[id := Lease(s.jobs[id], s.claimers[caller].c, s.claimers[caller].now)]
            && IsSecured(t.log, id) && t.claimers[caller] == Answered(s.claimers[caller].c, Some(id))
  {
    InvTrace(states);
    var s := states[|states| - 1];
    SecuredIsLease(s, caller);
    var t := SecureStep(s, caller);
    assert t.log[|s.log|] == Secured(s.claimers[caller].jobId, LeaseToken(s.claimers[caller].c));
  }

  /** The database calls a claim or a report may still make. */
  function ClaimLeft(x: Claimer): int {
    match x
    case Starting(_, _) => 6
    case Sweeping(_, _, done) => 5 - done
    case Holding(_, _, _, _) => 1
    case _ => 0
  }

  function ReportLeft(x: Reporter): int {
    match x
    case Reporting(_) => 2
    case MayRecord(_, _) => 1
    case _ => 0
  }

  /** Every call of theirs brings them nearer to their end, whatever others do. */
  lemma CallersEnd(s: System, op: Op)
    requires Enabled(s, op)
    ensures MovesClaim(op) ==>
      var t := Apply(s, op); op.caller in t.claimers && 0 <= ClaimLeft(t.claimers[op.caller]) < ClaimLeft(s.claimers[op.caller])
    ensures op.ReadJob? || op.Record? ==>
      var t := Apply(s, op); op.caller in t.reporters && 0 <= ReportLeft(t.reporters[op.caller]) < ReportLeft(s.reporters[op.caller])
  {
    match op {
      case Lookup(caller, found) => assert ClaimLeft(s.claimers[caller]) == 6;
      case SweepStep(caller) => assert ClaimLeft(s.claimers[caller]) >= 3;
      case Take(caller, id) => assert ClaimLeft(s.claimers[caller]) == 2;
      case _ =>
    }
  }

  lemma SweepsAsOne(j: Job, now: int)
    requires (j.status == Leased ==> j.leaseExpiresAt.Some?) && (j.status == OutcomeUnknown ==> j.reconcileExpiresAt.Some?)
    ensures SweepJob(SweepJob(SweepJob(j, 0, now), 1, now), 2, now) == Sweep(j, now)
  {
  }

  /** The three sweeps one after another, the two writes of a lease, and the writes of a
      wait on what it has just read do to every stored row what the file store does. */
  lemma RowsAsInTheFileStore(states: seq<System>, id: string, c: Claim, now: int)
    requires Trace(states) && id in states[|states| - 1].jobs
    ensures var j := states[|states| - 1].jobs[id];
            && SweepJob(SweepJob(SweepJob(j, 0, now), 1, now), 2, now) == Sweep(j, now)
            && SecureRow(LeaseRow(j, c, now), LeaseToken(c), j.leaseMs, now) == Lease(j, c, now)
            && (if Accepted(j.status) then WaitUncertainRow(j, j.uncertainAt, j.reconcileExpiresAt, now) else WaitQueuedRow(j, now)) == GiveUp(j, now)
  {
    InvTrace(states);
    var j := states[|states| - 1].jobs[id];
    assert RowInv(states[|states| - 1], id, j);
    SweepsAsOne(j, now);
  }

  ghost predicate RowForward(s: System, t: System, id: string) {
    id in s.jobs && id in t.jobs ==> BrokerRuns.MayBecome(s.jobs[id].status, t.jobs[id].status)
  }

  lemma SweepForward(s: System, caller: nat, id: string)
    requires Enabled(s, SweepStep(caller))
    ensures RowForward(s, Apply(s, SweepStep(caller)), id)
  {
  }

  lemma TakeForward(s: System, caller: nat, taken: string, id: string)
    requires Inv(s) && Enabled(s, Take(caller, taken))
    ensures RowForward(s, TakeStep(s, caller, taken), id)
  {
  }

  lemma SecureForward(s: System, caller: nat, id: string)
    requires Enabled(s, Secure(caller))
    ensures RowForward(s, SecureStep(s, caller), id)
  {
  }

  lemma RecordForward(s: System, caller: nat, id: string)
    requires Enabled(s, Record(caller))
    ensures RowForward(s, RecordStep(s, caller), id)
  {
  }

  lemma LookupForward(s: System, caller: nat, found: Option<string>, id: string)
    requires Enabled(s, Lookup(caller, found))
    ensures RowForward(s, LookupStep(s, caller, found), id)
  {
  }

  lemma InsertForward(s: System, job: Job, id: string)
    requires Inv(s) && Enabled(s, Insert(job))
    ensures RowForward(s, Apply(s, Insert(job)), id)
  {
    if id in s.jobs { assert RowInv(s, id, s.jobs[id]); }
  }

  lemma OthersForward(s: System, op: Op, id: string)
    requires Enabled(s, op)
    requires op.Remove? || op.StartClaim? || op.TakeNothing? || op.StartReport? || op.ReadJob? || op.WaitUncertain? || op.WaitQueued? || op.DropPayload?
    ensures RowForward(s, Apply(s, op), id)
  {
  }

  lemma ApplyMovesForward(s: System, op: Op, id: string)
    requires Inv(s) && Enabled(s, op)
    ensures RowForward(s, Apply(s, op), id)
  {
    match op {
      case Insert(job) => InsertForward(s, job, id);
      case Lookup(caller, found) => LookupForward(s, caller, found, id);
      case SweepStep(caller) => SweepForward(s, caller, id);
      case Take(caller, taken) => TakeForward(s, caller, taken, id);
      case Secure(caller) => SecureForward(s, caller, id);
      case Record(caller) => RecordForward(s, caller, id);
      case _ => OthersForward(s, op, id);
    }
  }

  lemma RemovedForGood(s: System, op: Op, id: string)
    requires Inv(s) && Enabled(s, op) && id in s.ids && id !in s.jobs
    ensures id !in Apply(s, op).jobs
  {
    if op.Take? && KeyTaken(s.jobs, s.claimers[op.caller].c) { }
  }

  ghost predicate ForwardOrGone(s: System, t: System, id: string) {
    && (id in s.jobs && id in t.jobs ==> BrokerRuns.MayBecome(s.jobs[id].status, t.jobs[id].status))
    && (id in s.ids && id !in s.jobs ==> id !in t.jobs)
    && s.ids <= t.ids && s.jobs.Keys <= s.ids
  }

  lemma IdsGrow(s: System, op: Op)
    requires Enabled(s, op)
    ensures s.ids <= Apply(s, op).ids
  {
  }

  lemma KeysKnown(s: System)
    requires Inv(s)
    ensures s.jobs.Keys <= s.ids
  {
    forall x | x in s.jobs ensures x in s.ids { assert RowInv(s, x, s.jobs[x]); }
  }

  lemma NextMovesForward(s: System, t: System, id: string)
    requires Inv(s) && Next(s, t)
    ensures ForwardOrGone(s, t, id)
  {
    var op :| Enabled(s, op) && t == Apply(s, op);
    IdsGrow(s, op);
    KeysKnown(s);
    ApplyMovesForward(s, op, id);
    if id in s.ids && id !in s.jobs { RemovedForGood(s, op, id); }
  }

  lemma ForwardOn(s: System, t: System, u: System, id: string)
    requires ForwardOrGone(s, t, id) && ForwardOrGone(t, u, id)
    ensures ForwardOrGone(s, u, id)
  {
  }

  lemma TracePrefix(states: seq<System>)
    requires Trace(states) && |states| > 1
    ensures Trace(states[..|states| - 1]) && Next(states[|states| - 2], states[|states| - 1])
  {
  }

  /** No interleaving returns a job to the queue, revives a terminal one, or
      brings back a removed one. */
  lemma {:induction false} JobsMoveForward(states: seq<System>, i: nat, id: string)
    requires Trace(states) && i < |states|
    ensures ForwardOrGone(states[i], states[|states| - 1], id)
  {
    var n := |states| - 1;
    if i == n {
      InvTrace(states);
      KeysKnown(states[n]);
    } else {
      TracePrefix(states);
      JobsMoveForward(states[..n], i, id);
      InvTrace(states[..n]);
      NextMovesForward(states[n - 1], states[n], id);
      ForwardOn(states[i], states[n - 1], states[n], id);
    }
  }

  /** A retry is handed a job as soon as it is leased, before the lease hash is
      written. The holder of a delivered token of an accepted job can report
      exactly when the lease was secured. */
  lemma DeliveredCanReport(states: seq<System>, i: nat, r: Report)
    requires Trace(states)
    requires var s := states[|states| - 1];
             && i < |s.log| && s.log[i].Delivered? && r.jobId == s.log[i].jobId && r.token == s.log[i].token
             && r.jobId in s.jobs && Accepted(s.jobs[r.jobId].status)
    ensures var s := states[|states| - 1];
            CompletionFor(s.jobs[r.jobId], r).Accept? <==> s.jobs[r.jobId].leaseHash.Some?
  {
    InvTrace(states);
    var s := states[|states| - 1];
    assert EventInv(s, s.log[i]) && RowInv(s, r.jobId, s.jobs[r.jobId]);
  }

  lemma Extend(states: seq<System>, op: Op) returns (longer: seq<System>)
    requires Trace(states) && Enabled(states[|states| - 1], op)
    ensures Trace(longer) && longer[|longer| - 1] == Apply(states[|states| - 1], op)
  {
    longer := states + [Apply(states[|states| - 1], op)];
    assert Next(states[|states| - 1], longer[|longer| - 1]);
  }

  function JobFor(c: Claim): Job {
    NewJob("job", c.userId, c.tenantKey, "", "{}", 1000, 0, 0)
  }

  function AfterSweeps(c: Claim, done: nat): System {
    System(map["job" := JobFor(c)], map[0 := Sweeping(c, 1, done)], map[], {"job"}, map[], [])
  }

  lemma QuietSweep(c: Claim, done: nat)
    requires done < 3
    ensures Enabled(AfterSweeps(c, done), SweepStep(0))
    ensures Apply(AfterSweeps(c, done), SweepStep(0)) == AfterSweeps(c, done + 1)
  {
    assert SweepJobs(map["job" := JobFor(c)], done, 1) == map["job" := JobFor(c)];
  }

  lemma ReachSweeping(c: Claim) returns (states: seq<System>)
    requires c.key.Some?
    ensures Trace(states) && states[|states| - 1] == AfterSweeps(c, 0)
  {
    states := Extend([EMPTY], Insert(JobFor(c)));
    states := Extend(states, StartClaim(0, c, 1));
    states := Extend(states, Lookup(0, None));
  }

  lemma ReachSwept(c: Claim) returns (states: seq<System>)
    requires c.key.Some?
    ensures Trace(states) && states[|states| - 1] == AfterSweeps(c, 3)
  {
    states := ReachSweeping(c);
    QuietSweep(c, 0);
    states := Extend(states, SweepStep(0));
    QuietSweep(c, 1);
    states := Extend(states, SweepStep(0));
    QuietSweep(c, 2);
    states := Extend(states, SweepStep(0));
  }

  function AfterTake(c: Claim): System {
    System(map["job" := LeaseRow(JobFor(c), c, 1)], map[0 := Holding(c, 1, "job", JobFor(c).leaseMs)], map[], {"job"},
           map["job" := 0], [Took("job", 0)])
  }

  lemma ReachTaken(c: Claim) returns (states: seq<System>)
    requires c.key.Some?
    ensures Trace(states) && states[|states| - 1] == AfterTake(c)
  {
    states := ReachSwept(c);
    assert Oldest(AfterSweeps(c, 3).jobs, c, "job");
    states := Extend(states, Take(0, "job"));
    assert !KeyTaken(AfterSweeps(c, 3).jobs, c);
  }

  ghost predicate UnsecuredButDelivered(s: System, token: Token) {
    && s.log == [Took("job", 0), Delivered("job", token)]
    && "job" in s.jobs && s.jobs["job"].status == Leased && s.jobs["job"].leaseHash.None?
  }

  /** And that gap is real: a claim may stop between its two writes, and the retry
      is delivered a job whose outcome it cannot report. */
  lemma UnsecuredDelivery(c: Claim)
    requires c.key.Some?
    ensures exists states :: Trace(states) && UnsecuredButDelivered(states[|states| - 1], LeaseToken(c))
  {
    var states := ReachTaken(c);
    states := Extend(states, StartClaim(1, c, 2));
    states := Extend(states, Lookup(1, Some("job")));
  }
}
