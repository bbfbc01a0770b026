/** The desktop job broker over the file store: every call is one atomic edit of
    the job list. Hashes are modelled by the data they cover, so equal hashes
    mean equal data. */
module Broker {
  import opened Base

  const RETENTION_MS := 24 * 60 * 60000
  const DEFAULT_LEASE_MS := 150000
  const RECONCILE_MS := 30 * 60000
  const MAX_PENDING := 50
  const MAX_TERMINAL := 2000

  datatype Status = Queued | Leased | OutcomeUnknown | Completed | Failed | Expired | ExpiredUnreconciled

  predicate Terminal(s: Status) {
    s == Completed || s == Failed || s == Expired || s == ExpiredUnreconciled
  }

  predicate Accepted(s: Status) {
    s == Leased || s == OutcomeUnknown
  }

  datatype ClaimKey = ClaimKey(userId: string, tenantId: string, environmentId: string, clientInstanceId: string, claimId: string)
  datatype Token = Derived(key: ClaimKey) | Random(nonce: nat) | Other(text: string)
  datatype LeaseHash = LeaseHash(jobId: string, token: Token)

  datatype Job = Job(
    id: string, userId: string, tenantKey: string, environmentKey: string,
    createdAt: int, expiresAt: int, leaseMs: int,
    status: Status, arguments: Option<string>, result: Option<string>, error: Option<string>,
    claimKey: Option<ClaimKey>, leaseHash: Option<LeaseHash>, completionHash: Option<LeaseHash>,
    leaseExpiresAt: Option<int>, uncertainAt: Option<int>, reconcileExpiresAt: Option<int>, purgedAt: Option<int>)

  datatype Envelope = Envelope(jobId: string, arguments: Option<string>, leaseToken: Token)

  // ------------------------------------------------------ lists of jobs

  /** The questions the proofs count jobs by. */
  datatype Question = HasId(id: string) | ActiveFor(userId: string)

  predicate Answers(j: Job, q: Question) {
    match q
    case HasId(id) => j.id == id
    case ActiveFor(userId) => j.userId == userId && !Terminal(j.status)
  }

  function Count(jobs: seq<Job>, q: Question): nat {
    if jobs == [] then 0
    else Count(jobs[..|jobs| - 1], q) + if Answers(jobs[|jobs| - 1], q) then 1 else 0
  }

  predicate UniqueIds(jobs: seq<Job>) {
    forall i, j :: 0 <= i < j < |jobs| ==> jobs[i].id != jobs[j].id
  }

  /** The position `jobs.find(job => job.id === id)` stops at. */
  function FindId(jobs: seq<Job>, id: string): (k: Option<nat>)
    ensures k.None? <==> forall i :: 0 <= i < |jobs| ==> jobs[i].id != id
    ensures k.Some? ==> k.value < |jobs| && jobs[k.value].id == id
                        && forall i :: 0 <= i < k.value ==> jobs[i].id != id
  {
    if jobs == [] then None
    else
      var k := FindId(jobs[..|jobs| - 1], id);
      if k.Some? then k
      else if jobs[|jobs| - 1].id == id then Some(|jobs| - 1) else None
  }

  // ------------------------------------------------------------- pruning

  predicate Retained(j: Job, now: int) {
    j.createdAt >= now - RETENTION_MS || !Terminal(j.status)
  }

  function KeepRetained(jobs: seq<Job>, now: int): seq<Job> {
    if jobs == [] then []
    else KeepRetained(jobs[..|jobs| - 1], now)
         + if Retained(jobs[|jobs| - 1], now) then [jobs[|jobs| - 1]] else []
  }

  function KeepByTerminal(jobs: seq<Job>, terminal: bool): seq<Job> {
    if jobs == [] then []
    else KeepByTerminal(jobs[..|jobs| - 1], terminal)
         + if Terminal(jobs[|jobs| - 1].status) == terminal then [jobs[|jobs| - 1]] else []
  }

  /** Stable insertion by creation time: after every job that is not younger. */
  function Insert(jobs: seq<Job>, j: Job): seq<Job> {
    if jobs == [] || jobs[|jobs| - 1].createdAt <= j.createdAt then jobs + [j]
    else Insert(jobs[..|jobs| - 1], j) + [jobs[|jobs| - 1]]
  }

  function SortByCreation(jobs: seq<Job>): seq<Job> {
    if jobs == [] then [] else Insert(SortByCreation(jobs[..|jobs| - 1]), jobs[|jobs| - 1])
  }

  function Prune(jobs: seq<Job>, now: int): seq<Job> {
    var retained := KeepRetained(jobs, now);
    SortByCreation(LastN(KeepByTerminal(retained, true), MAX_TERMINAL) + KeepByTerminal(retained, false))
  }

  // ------------------------------------------------------ the four edits

  function NewJob(id: string, userId: string, tenantKey: string, environmentKey: string,
                  arguments: string, timeoutMs: int, leaseMs: int, now: int): Job
  {
    Job(id, userId, tenantKey, environmentKey, now, now + timeoutMs, Max(DEFAULT_LEASE_MS, leaseMs),
        Queued, Some(arguments), None, None, None, None, None, None, None, None, None)
  }

  function EnqueueOn(kept: seq<Job>, job: Job): Option<seq<Job>> {
    if Count(kept, ActiveFor(job.userId)) >= MAX_PENDING then None else Some(kept + [job])
  }

  /** None is the refusal "too many calls are waiting", which changes nothing. */
  function EnqueueEdit(jobs: seq<Job>, job: Job, now: int): Option<seq<Job>> {
    EnqueueOn(Prune(jobs, now), job)
  }

  const LEASE_EXPIRED := "The desktop lease expired after acceptance."
  const RECONCILE_ENDED := "The reconciliation window ended."
  const NOT_ACCEPTED := "The desktop did not accept the job in time."
  const WAIT_UNCERTAIN := "Timed out waiting after the desktop accepted the operation."
  const WAIT_QUEUED := "Timed out before the desktop accepted the operation."

  predicate LeaseOver(j: Job, now: int) {
    j.status == Leased && OrElse(j.leaseExpiresAt, 0) <= now
  }

  /** What one turn of the claim's sweep does to one job. */
  function Sweep(j: Job, now: int): Job {
    var j1 := if LeaseOver(j, now)
              then j.(status := OutcomeUnknown, error := Some(LEASE_EXPIRED), uncertainAt := Some(now),
                      reconcileExpiresAt := Some(now + RECONCILE_MS))
              else j;
    var j2 := if j1.status == OutcomeUnknown && OrElse(j1.reconcileExpiresAt, 0) <= now
              then j1.(status := ExpiredUnreconciled, error := Some(RECONCILE_ENDED), arguments := None, result := None,
                       leaseHash := None, claimKey := None, purgedAt := Some(now))
              else j1;
    if j2.status == Queued && j2.expiresAt <= now
    then j2.(status := Expired, error := Some(NOT_ACCEPTED), arguments := None, result := None, purgedAt := Some(now))
    else j2
  }

  function SweepAll(jobs: seq<Job>, now: int): (r: seq<Job>)
    ensures |r| == |jobs| && forall i :: 0 <= i < |jobs| ==> r[i] == Sweep(jobs[i], now)
  {
    if jobs == [] then [] else SweepAll(jobs[..|jobs| - 1], now) + [Sweep(jobs[|jobs| - 1], now)]
  }

  datatype Claim = Claim(userId: string, tenantKey: string, environmentKey: string, key: Option<ClaimKey>, nonce: nat)

  function LeaseToken(c: Claim): Token {
    if c.key.Some? then Derived(c.key.value) else Random(c.nonce)
  }

  predicate HeldByKey(j: Job, c: Claim) {
    c.key.Some? && j.userId == c.userId && j.claimKey == c.key
  }

  predicate Claimable(j: Job, c: Claim) {
    j.status == Queued && j.userId == c.userId && j.tenantKey == c.tenantKey
    && (j.environmentKey == "" || j.environmentKey == c.environmentKey)
  }

  /** First job an earlier delivery of the same claim still holds. */
  function FindHeld(jobs: seq<Job>, c: Claim): (k: Option<nat>)
    ensures k.None? <==> forall i :: 0 <= i < |jobs| ==> !HeldByKey(jobs[i], c)
    ensures k.Some? ==> k.value < |jobs| && HeldByKey(jobs[k.value], c)
  {
    if jobs == [] then None
    else
      var k := FindHeld(jobs[..|jobs| - 1], c);
      if k.Some? then k else if HeldByKey(jobs[|jobs| - 1], c) then Some(|jobs| - 1) else None
  }

  function FindClaimable(jobs: seq<Job>, c: Claim): (k: Option<nat>)
    ensures k.None? <==> forall i :: 0 <= i < |jobs| ==> !Claimable(jobs[i], c)
    ensures k.Some? ==> k.value < |jobs| && Claimable(jobs[k.value], c)
                        && forall i :: 0 <= i < k.value ==> !Claimable(jobs[i], c)
  {
    if jobs == [] then None
    else
      var k := FindClaimable(jobs[..|jobs| - 1], c);
      if k.Some? then k else if Claimable(jobs[|jobs| - 1], c) then Some(|jobs| - 1) else None
  }

  function Lease(j: Job, c: Claim, now: int): Job {
    j.(status := Leased, claimKey := c.key, leaseExpiresAt := Some(now + Max(DEFAULT_LEASE_MS, j.leaseMs)),
       leaseHash := Some(LeaseHash(j.id, LeaseToken(c))))
  }

  function EnvelopeOf(j: Job, token: Token): Envelope {
    Envelope(j.id, j.arguments, token)
  }

  /** Leases the first claimable job, if any. */
  function LeaseOn(swept: seq<Job>, c: Claim, now: int): (seq<Job>, Option<Envelope>) {
    match FindClaimable(swept, c)
    case None => (swept, None)
    case Some(k) => (swept[k := Lease(swept[k], c, now)], Some(EnvelopeOf(swept[k], LeaseToken(c))))
  }

  function ClaimOn(kept: seq<Job>, c: Claim, now: int): (seq<Job>, Option<Envelope>) {
    match FindHeld(kept, c)
    case Some(k) => (kept, if kept[k].status == Leased then Some(EnvelopeOf(kept[k], LeaseToken(c))) else None)
    case None => LeaseOn(SweepAll(kept, now), c, now)
  }

  function ClaimEdit(jobs: seq<Job>, c: Claim, now: int): (seq<Job>, Option<Envelope>) {
    ClaimOn(Prune(jobs, now), c, now)
  }

  datatype Report = Report(userId: string, jobId: string, token: Token, failed: bool, result: Option<string>, error: Option<string>)
  datatype Completion = NotFound | NotLeased | WrongLease | Acknowledged(status: Status) | Accept(status: Status)

  function FindOwned(jobs: seq<Job>, id: string, userId: string): (k: Option<nat>)
    ensures k.None? <==> forall i :: 0 <= i < |jobs| ==> !(jobs[i].id == id && jobs[i].userId == userId)
    ensures k.Some? ==> k.value < |jobs| && jobs[k.value].id == id && jobs[k.value].userId == userId
  {
    if jobs == [] then None
    else
      var k := FindOwned(jobs[..|jobs| - 1], id, userId);
      if k.Some? then k
      else if jobs[|jobs| - 1].id == id && jobs[|jobs| - 1].userId == userId then Some(|jobs| - 1) else None
  }

  function Finish(j: Job, r: Report): Job {
    j.(status := if r.failed then Failed else Completed, result := r.result, error := r.error,
       leaseHash := None, completionHash := Some(LeaseHash(j.id, r.token)))
  }

  function CompletionFor(j: Job, r: Report): Completion {
    if (j.status == Completed || j.status == Failed) && j.completionHash == Some(LeaseHash(j.id, r.token))
    then Acknowledged(j.status)
    else if !Accepted(j.status) then NotLeased
    else if j.leaseHash != Some(LeaseHash(j.id, r.token)) then WrongLease
    else Accept(Finish(j, r).status)
  }

  function CompleteEdit(jobs: seq<Job>, r: Report): (seq<Job>, Completion) {
    match FindOwned(jobs, r.jobId, r.userId)
    case None => (jobs, NotFound)
    case Some(k) =>
      var outcome := CompletionFor(jobs[k], r);
      (if outcome.Accept? then jobs[k := Finish(jobs[k], r)] else jobs, outcome)
  }

  function GiveUp(j: Job, now: int): Job {
    if Accepted(j.status)
    then j.(status := OutcomeUnknown, error := Some(WAIT_UNCERTAIN), uncertainAt := Some(OrElse(j.uncertainAt, now)),
            reconcileExpiresAt := Some(OrElse(j.reconcileExpiresAt, now + RECONCILE_MS)))
    else if j.status == Queued
    then j.(status := Expired, error := Some(WAIT_QUEUED), arguments := None, result := None, purgedAt := Some(now))
    else j
  }

  function Discard(j: Job, now: int): Job {
    j.(arguments := None, result := None, purgedAt := Some(now))
  }

  /** The last step of a wait that ran out of time. */
  function GiveUpEdit(jobs: seq<Job>, id: string, now: int): seq<Job> {
    match FindId(jobs, id)
    case None => jobs
    case Some(k) => jobs[k := GiveUp(jobs[k], now)]
  }

  /** The step of a wait that saw a terminal status: hand it over and drop the
      payload. A completed job must still be completed. */
  function ConsumeEdit(jobs: seq<Job>, id: string, sawCompleted: bool, now: int): seq<Job> {
    match FindId(jobs, id)
    case None => jobs
    case Some(k) => if sawCompleted && jobs[k].status != Completed then jobs else jobs[k := Discard(jobs[k], now)]
  }

  /** What that wait hands over: the job as it was; None is the "could not be consumed"
      error. */
  function Snapshot(jobs: seq<Job>, id: string, sawCompleted: bool): Option<Job> {
    match FindId(jobs, id)
    case None => None
    case Some(k) => if sawCompleted && jobs[k].status != Completed then None else Some(jobs[k])
  }

  // --------------------------------------------------------- the store

  class JobStore {
    var jobs: seq<Job>

    constructor ()
      ensures jobs == []
    {
      jobs := [];
    }

    method Enqueue(job: Job, now: int) returns (accepted: bool)
      modifies this
      ensures accepted <==> EnqueueEdit(old(jobs), job, now).Some?
      ensures jobs == OrElse(EnqueueEdit(old(jobs), job, now), old(jobs))
    {
      var document := Prune(jobs, now);
      var pending := 0;
      for i := 0 to |document|
        invariant pending == Count(document[..i], ActiveFor(job.userId))
      {
        assert document[..i + 1][..i] == document[..i];
        if document[i].userId == job.userId && !Terminal(document[i].status) { pending := pending + 1; }
      }
      assert document[..|document|] == document;
      if pending >= MAX_PENDING { return false; }
      jobs := document + [job];
      return true;
    }

    /** The sweep loop of a claim. */
    method SweepStale(now: int)
      modifies this
      ensures jobs == SweepAll(old(jobs), now)
    {
      ghost var kept := jobs;
      for i := 0 to |jobs|
        invariant |jobs| == |kept|
        invariant forall k :: 0 <= k < i ==> jobs[k] == Sweep(kept[k], now)
        invariant forall k :: i <= k < |kept| ==> jobs[k] == kept[k]
      {
        var job := jobs[i];
        if job.status == Leased && OrElse(job.leaseExpiresAt, 0) <= now {
          job := job.(status := OutcomeUnknown, error := Some(LEASE_EXPIRED),
                      uncertainAt := Some(now), reconcileExpiresAt := Some(now + RECONCILE_MS));
        }
        if job.status == OutcomeUnknown && OrElse(job.reconcileExpiresAt, 0) <= now {
          job := job.(status := ExpiredUnreconciled, error := Some(RECONCILE_ENDED), arguments := None, result := None,
                      leaseHash := None, claimKey := None, purgedAt := Some(now));
        }
        if job.status == Queued && job.expiresAt <= now {
          job := job.(status := Expired, error := Some(NOT_ACCEPTED), arguments := None, result := None, purgedAt := Some(now));
        }
        jobs := jobs[i := job];
      }
    }

    method Claim(c: Claim, now: int) returns (claimed: Option<Envelope>)
      modifies this
      ensures jobs == ClaimEdit(old(jobs), c, now).0
      ensures claimed == ClaimEdit(old(jobs), c, now).1
    {
      jobs := Prune(jobs, now);
      var token := LeaseToken(c);
      var previous := FindHeld(jobs, c);
      if previous.Some? {
        return if jobs[previous.value].status == Leased then Some(EnvelopeOf(jobs[previous.value], token)) else None;
      }
      SweepStale(now);
      var match_ := FindClaimable(jobs, c);
      if match_.None? { return None; }
      var job := jobs[match_.value];
      jobs := jobs[match_.value := Lease(job, c, now)];
      return Some(EnvelopeOf(job, token));
    }

    method Complete(r: Report) returns (outcome: Completion)
      modifies this
      ensures (jobs, outcome) == CompleteEdit(old(jobs), r)
    {
      var k := FindOwned(jobs, r.jobId, r.userId);
      if k.None? { return NotFound; }
      var job := jobs[k.value];
      var suppliedHash := LeaseHash(job.id, r.token);
      if (job.status == Completed || job.status == Failed) && job.completionHash == Some(suppliedHash) {
        return Acknowledged(job.status);
      }
      if !Accepted(job.status) { return NotLeased; }
      if job.leaseHash != Some(suppliedHash) { return WrongLease; }
      job := job.(status := if r.failed then Failed else Completed, result := r.result, error := r.error);
      job := job.(leaseHash := None, completionHash := Some(suppliedHash));
      jobs := jobs[k.value := job];
      return Accept(job.status);
    }

    method GiveUp(id: string, now: int) returns (found: bool)
      modifies this
      ensures found <==> FindId(old(jobs), id).Some?
      ensures jobs == GiveUpEdit(old(jobs), id, now)
    {
      var k := FindId(jobs, id);
      if k.None? { return false; }
      var job := jobs[k.value];
      if job.status == Leased || job.status == OutcomeUnknown {
        job := job.(status := OutcomeUnknown, error := Some(WAIT_UNCERTAIN));
        job := job.(uncertainAt := Some(OrElse(job.uncertainAt, now)));
        job := job.(reconcileExpiresAt := Some(OrElse(job.reconcileExpiresAt, now + RECONCILE_MS)));
      } else if job.status == Queued {
        job := job.(status := Expired, error := Some(WAIT_QUEUED), arguments := None, result := None, purgedAt := Some(now));
      }
      jobs := jobs[k.value := job];
      return true;
    }

    method Consume(id: string, sawCompleted: bool, now: int) returns (snapshot: Option<Job>)
      modifies this
      ensures jobs == ConsumeEdit(old(jobs), id, sawCompleted, now)
      ensures snapshot == Snapshot(old(jobs), id, sawCompleted)
    {
      var k := FindId(jobs, id);
      if k.None? || (sawCompleted && jobs[k.value].status != Completed) { return None; }
      snapshot := Some(jobs[k.value]);
      jobs := jobs[k.value := jobs[k.value].(arguments := None, result := None, purgedAt := Some(now))];
    }
  }
}
