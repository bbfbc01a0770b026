/** What every stored job says, by what its callers asked for and reported: who
    ordered it, to whom it was delivered, what was reported and whether that was
    handed over. The history is kept beside the broker, by job id. */
module BrokerStories {
  import opened Base
  import opened Broker
  import opened BrokerRuns

  datatype Order = Order(userId: string, tenantKey: string, environmentKey: string, arguments: string, timeoutMs: int, leaseMs: int, at: int)
  datatype Delivery = Delivery(c: Claim, at: int)

  /** One job: its order, its first delivery, the report that was accepted for it, and
      whether its outcome was handed over. */
  datatype File = File(order: Order, delivery: Option<Delivery>, report: Option<Report>, consumed: bool)

  datatype Story = Story(s: System, files: map<string, File>)

  const BEGINNING := Story(START, map[])

  /** A wait hands over what it saw to be over, or what it saw completed. */
  predicate MayStep(h: Story, op: Op) {
    && BrokerRuns.Enabled(h.s, op)
    && (op.Consume? && !op.sawCompleted ==>
          var job := Lookup(h.s.jobs, op.id); job.Some? ==> Terminal(job.value.status) && job.value.status != Completed)
  }

  function Delivered(files: map<string, File>, envelope: Option<Envelope>, c: Claim, now: int): map<string, File> {
    if envelope.Some? && envelope.value.jobId in files && files[envelope.value.jobId].delivery.None?
    then var id := envelope.value.jobId; files[id := files[id].(delivery := Some(Delivery(c, now)))]
    else files
  }

  /** The history after a call, by what the caller said and was answered. */
  function Told(h: Story, op: Op, now: int): map<string, File> {
    match op
    case Enqueue(id, userId, tenantKey, environmentKey, arguments, timeoutMs, leaseMs) =>
      h.files[id := File(Order(userId, tenantKey, environmentKey, arguments, timeoutMs, leaseMs, now), None, None, false)]
    case ClaimJobs(c) => Delivered(h.files, ClaimEdit(h.s.jobs, c, now).1, c, now)
    case Complete(r) =>
      if CompleteEdit(h.s.jobs, r).1.Accept? && r.jobId in h.files
      then h.files[r.jobId := h.files[r.jobId].(report := Some(r))] else h.files
    case StopWaiting(_) => h.files
    case Consume(id, sawCompleted) =>
      if Snapshot(h.s.jobs, id, sawCompleted).Some? && id in h.files
      then h.files[id := h.files[id].(consumed := true)] else h.files
  }

  function Next(h: Story, op: Op, now: int): Story {
    Story(BrokerRuns.Step(h.s, op, now), Told(h, op, now))
  }

  ghost predicate Tale(h: Story, ops: seq<(Op, int)>, t: Story)
    decreases |ops|
  {
    if ops == [] then h == t else MayStep(h, ops[0].0) && Tale(Next(h, ops[0].0, ops[0].1), ops[1..], t)
  }

  // ------------------------------------------------------ what a job says

  predicate IsFinished(status: Status) {
    status == Completed || status == Failed
  }

  predicate WasDelivered(status: Status) {
    status != Queued && status != Expired
  }

  /** It is the job that was ordered. */
  predicate AsOrdered(j: Job, o: Order) {
    && j.userId == o.userId && j.tenantKey == o.tenantKey && j.environmentKey == o.environmentKey
    && j.createdAt == o.at && j.expiresAt == o.at + o.timeoutMs && j.leaseMs == Max(150000, o.leaseMs)
  }

  /** Its payload is kept until it expired or was handed over. */
  predicate PayloadKept(j: Job, f: File) {
    && (j.purgedAt.Some? <==> j.status == Expired || j.status == ExpiredUnreconciled || f.consumed)
    && j.arguments == if j.purgedAt.Some? then None else Some(f.order.arguments)
  }

  /** It carries the outcome that was reported, the result until it is purged. */
  predicate AsReported(j: Job, report: Option<Report>) {
    && (IsFinished(j.status) <==> report.Some?)
    && (report.Some? ==>
          j.status == (if report.value.failed then Failed else Completed) && j.error == report.value.error
          && j.result == if j.purgedAt.Some? then None else report.value.result)
    && (report.None? ==> j.result.None? && ErrorFits(j.status, j.error))
  }

  /** What an unreported job says of itself. */
  predicate ErrorFits(status: Status, error: Option<string>) {
    match status
    case Queued => error.None?
    case Leased => error.None?
    case OutcomeUnknown => error == Some(LEASE_EXPIRED) || error == Some(WAIT_UNCERTAIN)
    case Expired => error == Some(NOT_ACCEPTED) || error == Some(WAIT_QUEUED)
    case ExpiredUnreconciled => error == Some(RECONCILE_ENDED)
    case _ => false
  }

  /** It went, before its deadline, to a desktop it was ordered for, whose claim it keeps
      until it is given up, and who has the lease it asked for; once uncertain it can
      be reconciled for thirty minutes. */
  predicate AsDelivered(j: Job, o: Order, d: Delivery) {
    && d.c.userId == o.userId && d.c.tenantKey == o.tenantKey
    && (o.environmentKey == "" || o.environmentKey == d.c.environmentKey)
    && d.at < o.at + o.timeoutMs
    && j.claimKey == (if j.status == ExpiredUnreconciled then None else d.c.key)
    && (j.status == Leased ==> j.leaseExpiresAt == Some(d.at + j.leaseMs) && j.uncertainAt.None? && j.reconcileExpiresAt.None?)
    && (j.status == OutcomeUnknown ==> j.uncertainAt.Some? && j.reconcileExpiresAt == Some(j.uncertainAt.value + 30 * 60000))
  }

  predicate JobStory(j: Job, f: File) {
    && AsOrdered(j, f.order)
    && PayloadKept(j, f)
    && AsReported(j, f.report)
    && (f.consumed ==> Terminal(j.status))
    && (WasDelivered(j.status) <==> f.delivery.Some?)
    && (f.delivery.Some? ==> AsDelivered(j, f.order, f.delivery.value))
    && (f.delivery.None? ==> j.claimKey.None? && j.uncertainAt.None? && j.reconcileExpiresAt.None?)
  }

  ghost predicate AllStories(jobs: seq<Job>, files: map<string, File>) {
    forall k :: 0 <= k < |jobs| ==> jobs[k].id in files && JobStory(jobs[k], files[jobs[k].id])
  }

  ghost predicate StoryInv(h: Story) {
    BrokerRuns.Inv(h.s) && h.files.Keys == h.s.known && AllStories(h.s.jobs, h.files)
  }

  // -------------------------------------------------------------- the proof

  lemma ChangedStories(jobs: seq<Job>, k: nat, j: Job, files: map<string, File>, f: File)
    requires UniqueIds(jobs) && AllStories(jobs, files) && k < |jobs| && j.id == jobs[k].id && JobStory(j, f)
    ensures AllStories(jobs[k := j], files[j.id := f])
  {
    var after := jobs[k := j];
    forall i | 0 <= i < |after| ensures after[i].id in files && JobStory(after[i], files[j.id := f][after[i].id]) {
      assert i != k ==> jobs[i].id != j.id;
    }
  }

  lemma PrunedStories(jobs: seq<Job>, now: int, files: map<string, File>)
    requires UniqueIds(jobs) && AllStories(jobs, files)
    ensures UniqueIds(Prune(jobs, now)) && AllStories(Prune(jobs, now), files)
  {
    PruneUnique(jobs, now);
    var kept := Prune(jobs, now);
    forall k | 0 <= k < |kept| ensures kept[k].id in files && JobStory(kept[k], files[kept[k].id]) {
      PruneMembers(jobs, now, kept[k]);
    }
  }

  lemma SweptStory(j: Job, now: int, f: File)
    requires JobStory(j, f)
    ensures JobStory(Sweep(j, now), f) && Sweep(j, now).id == j.id
    ensures Sweep(j, now).status == Queued ==> now < j.expiresAt
  {
  }

  ghost predicate InTime(jobs: seq<Job>, now: int) {
    forall k :: 0 <= k < |jobs| && jobs[k].status == Queued ==> now < jobs[k].expiresAt
  }

  lemma SweptStories(jobs: seq<Job>, now: int, files: map<string, File>)
    requires UniqueIds(jobs) && AllStories(jobs, files)
    ensures UniqueIds(SweepAll(jobs, now)) && AllStories(SweepAll(jobs, now), files) && InTime(SweepAll(jobs, now), now)
  {
    SweepUnique(jobs, now);
    var swept := SweepAll(jobs, now);
    forall k | 0 <= k < |swept|
      ensures swept[k].id in files && JobStory(swept[k], files[swept[k].id])
      ensures swept[k].status == Queued ==> now < swept[k].expiresAt
    {
      SweptStory(jobs[k], now, files[jobs[k].id]);
      assert swept[k] == Sweep(jobs[k], now);
    }
  }

  lemma LeasedStory(j: Job, c: Claim, now: int, f: File)
    requires JobStory(j, f) && Claimable(j, c) && now < j.expiresAt
    ensures JobStory(Lease(j, c, now), f.(delivery := Some(Delivery(c, now)))) && f.delivery.None?
  {
  }

  lemma LeasedStories(swept: seq<Job>, c: Claim, now: int, files: map<string, File>)
    requires UniqueIds(swept) && AllStories(swept, files) && InTime(swept, now)
    ensures var (jobs, envelope) := LeaseOn(swept, c, now); AllStories(jobs, Delivered(files, envelope, c, now))
  {
    var found := FindClaimable(swept, c);
    if found.Some? {
      var j := swept[found.value];
      LeasedStory(j, c, now, files[j.id]);
      ChangedStories(swept, found.value, Lease(j, c, now), files, files[j.id].(delivery := Some(Delivery(c, now))));
    }
  }

  lemma ClaimedStories(kept: seq<Job>, c: Claim, now: int, files: map<string, File>)
    requires UniqueIds(kept) && AllStories(kept, files)
    ensures var (jobs, envelope) := ClaimOn(kept, c, now); AllStories(jobs, Delivered(files, envelope, c, now))
  {
    var held := FindHeld(kept, c);
    if held.Some? {
      assert JobStory(kept[held.value], files[kept[held.value].id]);
    } else {
      SweptStories(kept, now, files);
      LeasedStories(SweepAll(kept, now), c, now, files);
    }
  }

  lemma EnqueuedStories(jobs: seq<Job>, job: Job, files: map<string, File>, f: File, now: int)
    requires UniqueIds(jobs) && AllStories(jobs, files) && job.id !in files && JobStory(job, f)
    ensures AllStories(OrElse(EnqueueEdit(jobs, job, now), jobs), files[job.id := f])
  {
    PrunedStories(jobs, now, files);
  }

  lemma FinishedStory(j: Job, r: Report, f: File)
    requires JobStory(j, f) && Accepted(j.status)
    ensures JobStory(Finish(j, r), f.(report := Some(r)))
  {
  }

  lemma CompletedStories(jobs: seq<Job>, r: Report, files: map<string, File>)
    requires UniqueIds(jobs) && AllStories(jobs, files) && CompleteEdit(jobs, r).1.Accept?
    ensures r.jobId in files && AllStories(CompleteEdit(jobs, r).0, files[r.jobId := files[r.jobId].(report := Some(r))])
  {
    var k := FindOwned(jobs, r.jobId, r.userId).value;
    FinishedStory(jobs[k], r, files[r.jobId]);
    ChangedStories(jobs, k, Finish(jobs[k], r), files, files[r.jobId].(report := Some(r)));
  }

  lemma GivenUpStory(j: Job, now: int, f: File)
    requires JobStory(j, f)
    ensures JobStory(GiveUp(j, now), f)
  {
  }

  lemma GivenUpStories(jobs: seq<Job>, id: string, now: int, files: map<string, File>)
    requires UniqueIds(jobs) && AllStories(jobs, files)
    ensures AllStories(GiveUpEdit(jobs, id, now), files)
  {
    var k := FindId(jobs, id);
    if k.Some? {
      GivenUpStory(jobs[k.value], now, files[id]);
      ChangedStories(jobs, k.value, GiveUp(jobs[k.value], now), files, files[id]);
      assert files[id := files[id]] == files;
    }
  }

  lemma DiscardedStory(j: Job, now: int, f: File)
    requires JobStory(j, f) && Terminal(j.status)
    ensures JobStory(Discard(j, now), f.(consumed := true))
  {
  }

  lemma ConsumedStories(jobs: seq<Job>, id: string, sawCompleted: bool, now: int, files: map<string, File>)
    requires UniqueIds(jobs) && AllStories(jobs, files) && Snapshot(jobs, id, sawCompleted).Some?
    requires Terminal(Snapshot(jobs, id, sawCompleted).value.status)
    ensures id in files && AllStories(ConsumeEdit(jobs, id, sawCompleted, now), files[id := files[id].(consumed := true)])
  {
    var k := FindId(jobs, id).value;
    DiscardedStory(jobs[k], now, files[id]);
    ChangedStories(jobs, k, Discard(jobs[k], now), files, files[id].(consumed := true));
  }

  lemma NextStories(h: Story, op: Op, now: int)
    requires StoryInv(h) && MayStep(h, op)
    ensures AllStories(Next(h, op, now).s.jobs, Told(h, op, now))
  {
    match op {
      case Enqueue(id, userId, tenantKey, environmentKey, arguments, timeoutMs, leaseMs) =>
        EnqueuedStories(h.s.jobs, NewJob(id, userId, tenantKey, environmentKey, arguments, timeoutMs, leaseMs, now),
                        h.files, Told(h, op, now)[id], now);
      case ClaimJobs(c) =>
        PrunedStories(h.s.jobs, now, h.files);
        ClaimedStories(Prune(h.s.jobs, now), c, now, h.files);
      case Complete(r) => if CompleteEdit(h.s.jobs, r).1.Accept? { CompletedStories(h.s.jobs, r, h.files); }
      case StopWaiting(id) => GivenUpStories(h.s.jobs, id, now, h.files);
      case Consume(id, sawCompleted) =>
        if Snapshot(h.s.jobs, id, sawCompleted).Some? { ConsumedStories(h.s.jobs, id, sawCompleted, now, h.files); }
    }
  }

  lemma InvNext(h: Story, op: Op, now: int)
    requires StoryInv(h) && MayStep(h, op)
    ensures StoryInv(Next(h, op, now))
  {
    BrokerRuns.InvStep(h.s, op, now);
    NextStories(h, op, now);
  }

  lemma {:induction false} StoryRun(h: Story, ops: seq<(Op, int)>, t: Story)
    requires StoryInv(h) && Tale(h, ops, t)
    ensures StoryInv(t)
    decreases |ops|
  {
    if ops != [] {
      InvNext(h, ops[0].0, ops[0].1);
      StoryRun(Next(h, ops[0].0, ops[0].1), ops[1..], t);
    }
  }

  // ---------------------------------------------------------- what it means

  /** In every run every stored job is as it was ordered, delivered and reported. */
  lemma JobTellsItsStory(ops: seq<(Op, int)>, h: Story, k: nat)
    requires Tale(BEGINNING, ops, h) && k < |h.s.jobs|
    ensures h.s.jobs[k].id in h.files && JobStory(h.s.jobs[k], h.files[h.s.jobs[k].id])
  {
    StoryRun(BEGINNING, ops, h);
  }

  /** The first time a wait hands over a job that was reported on, it hands over that
      report's result and error. */
  lemma HandedOverAsReported(ops: seq<(Op, int)>, h: Story, id: string, sawCompleted: bool)
    requires Tale(BEGINNING, ops, h) && Snapshot(h.s.jobs, id, sawCompleted).Some?
    ensures id in h.files
    ensures var j, f := Snapshot(h.s.jobs, id, sawCompleted).value, h.files[id];
            j.id == id
            && (f.report.Some? && !f.consumed ==>
                  j.result == f.report.value.result && j.error == f.report.value.error
                  && j.status == if f.report.value.failed then Failed else Completed)
  {
    StoryRun(BEGINNING, ops, h);
    assert JobStory(h.s.jobs[FindId(h.s.jobs, id).value], h.files[id]);
  }

  lemma ReportStays(h: Story, op: Op, now: int, id: string)
    requires StoryInv(h) && MayStep(h, op) && id in h.files && h.files[id].report.Some?
    ensures var t := Next(h, op, now); id in t.files && t.files[id].report == h.files[id].report
  {
    if op.Complete? && CompleteEdit(h.s.jobs, op.r).1.Accept? {
      var j := h.s.jobs[FindOwned(h.s.jobs, op.r.jobId, op.r.userId).value];
      assert JobStory(j, h.files[j.id]);
    }
  }

  /** An accepted report is the job's report for good. */
  lemma {:induction false} ReportsStay(h: Story, ops: seq<(Op, int)>, t: Story, id: string)
    requires StoryInv(h) && Tale(h, ops, t) && id in h.files && h.files[id].report.Some?
    ensures id in t.files && t.files[id].report == h.files[id].report
    decreases |ops|
  {
    if ops != [] {
      ReportStays(h, ops[0].0, ops[0].1, id);
      InvNext(h, ops[0].0, ops[0].1);
      ReportsStay(Next(h, ops[0].0, ops[0].1), ops[1..], t, id);
    }
  }

  lemma StoryOfMember(jobs: seq<Job>, files: map<string, File>, x: Job)
    requires AllStories(jobs, files) && x in jobs
    ensures x.id in files && JobStory(x, files[x.id])
  {
  }

  lemma AcceptedIsFiled(h: Story, r: Report, now: int)
    requires StoryInv(h) && CompleteEdit(h.s.jobs, r).1.Accept?
    ensures var t := Next(h, Complete(r), now); StoryInv(t) && r.jobId in t.files && t.files[r.jobId].report == Some(r)
  {
    CompletedStories(h.s.jobs, r, h.files);
    InvNext(h, Complete(r), now);
  }

  /** From its acceptance on, whatever is called in between, the job carries the
      result and error of exactly that report, until its outcome is handed over. */
  lemma AcceptedOutcomeStays(ops: seq<(Op, int)>, h: Story, r: Report, now: int, later: seq<(Op, int)>, t: Story, k: nat)
    requires Tale(BEGINNING, ops, h) && CompleteEdit(h.s.jobs, r).1.Accept?
    requires Tale(Next(h, Complete(r), now), later, t) && k < |t.s.jobs| && t.s.jobs[k].id == r.jobId
    ensures r.jobId in t.files && t.files[r.jobId].report == Some(r)
    ensures t.s.jobs[k].error == r.error && t.s.jobs[k].status == if r.failed then Failed else Completed
    ensures t.s.jobs[k].result == if t.files[r.jobId].consumed then None else r.result
  {
    StoryRun(BEGINNING, ops, h);
    AcceptedIsFiled(h, r, now);
    var mid := Next(h, Complete(r), now);
    ReportsStay(mid, later, t, r.jobId);
    StoryRun(mid, later, t);
    StoryOfMember(t.s.jobs, t.files, t.s.jobs[k]);
  }

  /** The envelope carries the arguments of the order and the claim's token, and goes to
      a desktop of the user, and at first of the tenant and environment, it was ordered
      for, before its deadline. */
  ghost predicate AsOrderedFor(e: Envelope, files: map<string, File>, c: Claim, now: int) {
    && e.jobId in files && e.leaseToken == LeaseToken(c)
    && var o := files[e.jobId].order;
    && e.arguments == Some(o.arguments) && o.userId == c.userId
    && (files[e.jobId].delivery.None? ==>
          now < o.at + o.timeoutMs && o.tenantKey == c.tenantKey && (o.environmentKey == "" || o.environmentKey == c.environmentKey))
  }

  lemma HeldAsOrdered(j: Job, f: File, c: Claim)
    requires JobStory(j, f) && HeldByKey(j, c) && j.status == Leased
    ensures f.delivery.Some? && j.arguments == Some(f.order.arguments) && f.order.userId == c.userId
  {
  }

  lemma LeasedAsOrdered(j: Job, f: File, c: Claim, now: int)
    requires JobStory(j, f) && Claimable(j, c) && now < j.expiresAt
    ensures AsOrderedFor(EnvelopeOf(j, LeaseToken(c)), map[j.id := f], c, now)
  {
  }

  lemma ClaimedAsOrdered(kept: seq<Job>, files: map<string, File>, c: Claim, now: int)
    requires UniqueIds(kept) && AllStories(kept, files) && ClaimOn(kept, c, now).1.Some?
    ensures AsOrderedFor(ClaimOn(kept, c, now).1.value, files, c, now)
  {
    var held := FindHeld(kept, c);
    if held.Some? {
      var j := kept[held.value];
      HeldAsOrdered(j, files[j.id], c);
    } else {
      var swept := SweepAll(kept, now);
      SweptStories(kept, now, files);
      var j := swept[FindClaimable(swept, c).value];
      LeasedAsOrdered(j, files[j.id], c, now);
    }
  }

  /** Every envelope is as it was ordered. */
  lemma EnvelopeAsOrdered(ops: seq<(Op, int)>, h: Story, c: Claim, now: int)
    requires Tale(BEGINNING, ops, h) && ClaimEdit(h.s.jobs, c, now).1.Some?
    ensures AsOrderedFor(ClaimEdit(h.s.jobs, c, now).1.value, h.files, c, now)
  {
    StoryRun(BEGINNING, ops, h);
    PrunedStories(h.s.jobs, now, h.files);
    ClaimedAsOrdered(Prune(h.s.jobs, now), h.files, c, now);
  }

  /** A job that still waits, in time, for a desktop like the one that claims. */
  predicate WaitsFor(j: Job, files: map<string, File>, c: Claim, now: int) {
    && j.status == Queued && j.id in files
    && var o := files[j.id].order;
    && now < o.at + o.timeoutMs && o.userId == c.userId && o.tenantKey == c.tenantKey
    && (o.environmentKey == "" || o.environmentKey == c.environmentKey)
  }

  lemma ClaimableWaits(jobs: seq<Job>, files: map<string, File>, c: Claim, now: int, x: Job)
    requires UniqueIds(jobs) && AllStories(jobs, files) && x in SweepAll(Prune(jobs, now), now) && Claimable(x, c)
    ensures x in jobs && WaitsFor(x, files, c, now)
  {
    var kept := Prune(jobs, now);
    var swept := SweepAll(kept, now);
    PrunedStories(jobs, now, files);
    var k :| 0 <= k < |swept| && swept[k] == x;
    SweptStory(kept[k], now, files[kept[k].id]);
    PruneMembers(jobs, now, kept[k]);
    assert Sweep(kept[k], now) == kept[k];
  }

  lemma WaitingIsClaimable(jobs: seq<Job>, files: map<string, File>, c: Claim, now: int, x: Job)
    requires AllStories(jobs, files) && x in jobs && WaitsFor(x, files, c, now)
    ensures x in SweepAll(Prune(jobs, now), now) && Claimable(x, c)
  {
    var kept := Prune(jobs, now);
    StoryOfMember(jobs, files, x);
    PruneMembers(jobs, now, x);
    var i :| 0 <= i < |kept| && kept[i] == x;
    assert SweepAll(kept, now)[i] == Sweep(x, now) == x;
  }

  /** Of the jobs that wait for the claim, the one ordered first has this id. */
  ghost predicate OrderedFirst(jobs: seq<Job>, files: map<string, File>, c: Claim, now: int, id: string) {
    exists j :: j in jobs && WaitsFor(j, files, c, now) && j.id == id && NoneBefore(jobs, files, c, now, j)
  }

  ghost predicate NoneBefore(jobs: seq<Job>, files: map<string, File>, c: Claim, now: int, j: Job)
    requires j.id in files
  {
    forall x :: x in jobs && WaitsFor(x, files, c, now) ==> files[j.id].order.at <= files[x.id].order.at
  }

  lemma OldestIsOrderedFirst(jobs: seq<Job>, files: map<string, File>, c: Claim, now: int, id: string)
    requires UniqueIds(jobs) && AllStories(jobs, files) && OldestClaimable(SweepAll(Prune(jobs, now), now), c, id)
    ensures OrderedFirst(jobs, files, c, now, id)
  {
    var swept := SweepAll(Prune(jobs, now), now);
    var k :| 0 <= k < |swept| && swept[k].id == id && Claimable(swept[k], c)
             && forall i :: 0 <= i < |swept| && Claimable(swept[i], c) ==> swept[k].createdAt <= swept[i].createdAt;
    var j := swept[k];
    ClaimableWaits(jobs, files, c, now, j);
    forall x | x in jobs && WaitsFor(x, files, c, now) ensures files[j.id].order.at <= files[x.id].order.at {
      WaitingIsClaimable(jobs, files, c, now, x);
      StoryOfMember(jobs, files, x);
      StoryOfMember(jobs, files, j);
    }
  }

  lemma NobodyWaits(jobs: seq<Job>, files: map<string, File>, c: Claim, now: int)
    requires UniqueIds(jobs) && AllStories(jobs, files) && BrokerRuns.NothingClaimable(SweepAll(Prune(jobs, now), now), c)
    ensures forall x :: x in jobs ==> !WaitsFor(x, files, c, now)
  {
    forall x | x in jobs ensures !WaitsFor(x, files, c, now) {
      if WaitsFor(x, files, c, now) { WaitingIsClaimable(jobs, files, c, now, x); }
    }
  }

  /** A claim that is no repeat is handed the job ordered first of those that wait for
      it, and nothing exactly if none does. */
  lemma ClaimServesTheOldest(ops: seq<(Op, int)>, h: Story, c: Claim, now: int)
    requires Tale(BEGINNING, ops, h) && FindHeld(Prune(h.s.jobs, now), c).None?
    ensures var e := ClaimEdit(h.s.jobs, c, now).1;
            if e.Some? then OrderedFirst(h.s.jobs, h.files, c, now, e.value.jobId)
            else forall x :: x in h.s.jobs ==> !WaitsFor(x, h.files, c, now)
  {
    StoryRun(BEGINNING, ops, h);
    ClaimTakesOldest(h.s.jobs, c, now);
    var e := ClaimEdit(h.s.jobs, c, now).1;
    if e.Some? { OldestIsOrderedFirst(h.s.jobs, h.files, c, now, e.value.jobId); }
    else { NobodyWaits(h.s.jobs, h.files, c, now); }
  }

  /** What a wait that runs out of time leaves of a job: one that was delivered and
      neither reported on nor given up stays open for reconciling, until thirty minutes
      after it first became uncertain; one that nobody took is withdrawn with its
      payload; any other is as it was. */
  ghost predicate LeftBehind(j: Job, f: File, now: int, after: Job) {
    if j.status == ExpiredUnreconciled || j.status == Expired || f.report.Some? then after == j
    else if f.delivery.Some? then
      && after.status == OutcomeUnknown && after.error == Some(WAIT_UNCERTAIN) && after.leaseHash == j.leaseHash
      && after.uncertainAt == Some(OrElse(j.uncertainAt, now))
      && after.reconcileExpiresAt == Some(OrElse(j.uncertainAt, now) + 30 * 60000)
    else after.status == Expired && after.error == Some(WAIT_QUEUED) && after.arguments.None? && after.purgedAt == Some(now)
  }

  lemma LeftBehindOne(j: Job, f: File, now: int)
    requires JobStory(j, f)
    ensures LeftBehind(j, f, now, GiveUp(j, now))
  {
  }

  lemma GivenUpOnly(jobs: seq<Job>, k: nat, now: int)
    requires UniqueIds(jobs) && k < |jobs|
    ensures GiveUpEdit(jobs, jobs[k].id, now) == jobs[k := GiveUp(jobs[k], now)]
  {
    var found := FindId(jobs, jobs[k].id);
    assert found.Some? && jobs[found.value].id == jobs[k].id;
  }

  lemma StoppedWaiting(ops: seq<(Op, int)>, h: Story, k: nat, now: int)
    requires Tale(BEGINNING, ops, h) && k < |h.s.jobs|
    ensures var j, t := h.s.jobs[k], Next(h, StopWaiting(h.s.jobs[k].id), now);
            && j.id in h.files && |t.s.jobs| == |h.s.jobs| && LeftBehind(j, h.files[j.id], now, t.s.jobs[k])
            && t.s.jobs == h.s.jobs[k := t.s.jobs[k]] && t.s.jobs[k].id == j.id
  {
    StoryRun(BEGINNING, ops, h);
    GivenUpOnly(h.s.jobs, k, now);
    LeftBehindOne(h.s.jobs[k], h.files[h.s.jobs[k].id], now);
  }

  /** A lease lasts as long as was asked for, and its job, if nobody reports, is open
      for thirty minutes more from the sweep that notices its end. */
  lemma StaleLeaseIsUncertain(ops: seq<(Op, int)>, h: Story, k: nat, now: int, later: int)
    requires Tale(BEGINNING, ops, h) && k < |h.s.jobs| && h.s.jobs[k].status == Leased
    ensures var j, swept := h.s.jobs[k], Sweep(h.s.jobs[k], now);
            && j.id in h.files && h.files[j.id].delivery.Some?
            && var end := h.files[j.id].delivery.value.at + Max(150000, h.files[j.id].order.leaseMs);
            && (now < end ==> swept == j)
            && (now >= end ==>
                  swept.status == OutcomeUnknown && swept.leaseHash == j.leaseHash
                  && Sweep(swept, later).status == if later >= now + 30 * 60000 then ExpiredUnreconciled else OutcomeUnknown)
  {
    StoryRun(BEGINNING, ops, h);
    assert JobStory(h.s.jobs[k], h.files[h.s.jobs[k].id]);
  }
}
