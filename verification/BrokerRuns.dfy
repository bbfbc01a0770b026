/** Safety of the file-store broker over whole runs: any calls, in any order, at
    any clock readings. */
module BrokerRuns {
  import opened Base
  import opened Broker

  // ------------------------------------------------- facts about pruning

  lemma {:induction false} CountConcat(a: seq<Job>, b: seq<Job>, q: Question)
    ensures Count(a + b, q) == Count(a, q) + Count(b, q)
  {
    if b == [] {
      assert a + b == a;
    } else {
      var n := |b| - 1;
      assert (a + b)[..|a + b| - 1] == a + b[..n];
      CountConcat(a, b[..n], q);
    }
  }

  lemma {:induction false} CountInsert(jobs: seq<Job>, j: Job, q: Question)
    ensures Count(Insert(jobs, j), q) == Count(jobs, q) + if Answers(j, q) then 1 else 0
  {
    var n := |jobs| - 1;
    if jobs == [] || jobs[n].createdAt <= j.createdAt {
      assert (jobs + [j])[..|jobs|] == jobs;
    } else {
      CountInsert(jobs[..n], j, q);
      assert Insert(jobs, j)[..|Insert(jobs, j)| - 1] == Insert(jobs[..n], j);
    }
  }

  lemma {:induction false} CountSort(jobs: seq<Job>, q: Question)
    ensures Count(SortByCreation(jobs), q) == Count(jobs, q)
  {
    if jobs != [] {
      CountSort(jobs[..|jobs| - 1], q);
      CountInsert(SortByCreation(jobs[..|jobs| - 1]), jobs[|jobs| - 1], q);
    }
  }

  lemma CountOptional(a: seq<Job>, j: Job, keep: bool, q: Question)
    ensures Count(a + if keep then [j] else [], q) == Count(a, q) + if keep && Answers(j, q) then 1 else 0
  {
    if keep { assert (a + [j])[..|a|] == a; } else { assert a + [] == a; }
  }

  lemma {:induction false} CountRetained(jobs: seq<Job>, now: int, q: Question)
    ensures Count(KeepRetained(jobs, now), q) <= Count(jobs, q)
    ensures q.ActiveFor? ==> Count(KeepRetained(jobs, now), q) == Count(jobs, q)
  {
    if jobs != [] {
      var n := |jobs| - 1;
      CountRetained(jobs[..n], now, q);
      CountOptional(KeepRetained(jobs[..n], now), jobs[n], Retained(jobs[n], now), q);
    }
  }

  lemma {:induction false} CountByTerminal(jobs: seq<Job>, terminal: bool, q: Question)
    ensures jobs != [] ==>
      var j := jobs[|jobs| - 1];
      Count(KeepByTerminal(jobs, terminal), q)
      == Count(KeepByTerminal(jobs[..|jobs| - 1], terminal), q) + if Terminal(j.status) == terminal && Answers(j, q) then 1 else 0
  {
    if jobs != [] {
      var j := jobs[|jobs| - 1];
      CountOptional(KeepByTerminal(jobs[..|jobs| - 1], terminal), j, Terminal(j.status) == terminal, q);
    }
  }

  lemma {:induction false} CountSplit(jobs: seq<Job>, q: Question)
    ensures Count(KeepByTerminal(jobs, true), q) + Count(KeepByTerminal(jobs, false), q) == Count(jobs, q)
    ensures q.ActiveFor? ==> Count(KeepByTerminal(jobs, true), q) == 0
  {
    if jobs != [] {
      CountSplit(jobs[..|jobs| - 1], q);
      CountByTerminal(jobs, true, q);
      CountByTerminal(jobs, false, q);
    }
  }

  lemma CountLast(jobs: seq<Job>, n: nat, q: Question)
    ensures Count(LastN(jobs, n), q) <= Count(jobs, q)
  {
    var last := LastN(jobs, n);
    assert jobs[..|jobs| - |last|] + last == jobs;
    CountConcat(jobs[..|jobs| - |last|], last, q);
  }

  /** Pruning loses no waiting job and duplicates nothing. */
  lemma CountPrune(jobs: seq<Job>, now: int, q: Question)
    ensures Count(Prune(jobs, now), q) <= Count(jobs, q)
    ensures q.ActiveFor? ==> Count(Prune(jobs, now), q) == Count(jobs, q)
  {
    var retained := KeepRetained(jobs, now);
    var last, active := LastN(KeepByTerminal(retained, true), MAX_TERMINAL), KeepByTerminal(retained, false);
    CountRetained(jobs, now, q);
    CountSplit(retained, q);
    CountLast(KeepByTerminal(retained, true), MAX_TERMINAL, q);
    CountConcat(last, active, q);
    CountSort(last + active, q);
    assert Prune(jobs, now) == SortByCreation(last + active);
  }

  lemma {:induction false} InsertMembers(jobs: seq<Job>, j: Job, x: Job)
    ensures x in Insert(jobs, j) <==> x in jobs || x == j
  {
    if jobs != [] && jobs[|jobs| - 1].createdAt > j.createdAt {
      InsertMembers(jobs[..|jobs| - 1], j, x);
      assert jobs == jobs[..|jobs| - 1] + [jobs[|jobs| - 1]];
    }
  }

  lemma {:induction false} SortMembers(jobs: seq<Job>, x: Job)
    ensures x in SortByCreation(jobs) <==> x in jobs
  {
    if jobs != [] {
      SortMembers(jobs[..|jobs| - 1], x);
      InsertMembers(SortByCreation(jobs[..|jobs| - 1]), jobs[|jobs| - 1], x);
      assert jobs == jobs[..|jobs| - 1] + [jobs[|jobs| - 1]];
    }
  }

  lemma {:induction false} KeepMembers(jobs: seq<Job>, now: int, x: Job)
    ensures x in KeepRetained(jobs, now) <==> x in jobs && Retained(x, now)
    ensures x in KeepByTerminal(jobs, true) <==> x in jobs && Terminal(x.status)
    ensures x in KeepByTerminal(jobs, false) <==> x in jobs && !Terminal(x.status)
  {
    if jobs != [] {
      KeepMembers(jobs[..|jobs| - 1], now, x);
      assert jobs == jobs[..|jobs| - 1] + [jobs[|jobs| - 1]];
    }
  }

  /** Only terminal jobs are ever dropped. */
  lemma PruneMembers(jobs: seq<Job>, now: int, x: Job)
    ensures x in Prune(jobs, now) ==> x in jobs
    ensures x in jobs && !Terminal(x.status) ==> x in Prune(jobs, now)
  {
    var retained := KeepRetained(jobs, now);
    KeepMembers(jobs, now, x);
    KeepMembers(retained, now, x);
    var last := LastN(KeepByTerminal(retained, true), MAX_TERMINAL);
    SortMembers(last + KeepByTerminal(retained, false), x);
    assert x in last ==> x in KeepByTerminal(retained, true);
  }

  /** A terminal job younger than a day. */
  predicate Recent(j: Job, now: int) {
    Terminal(j.status) && j.createdAt >= now - 24 * 60 * 60000
  }

  function CountRecent(jobs: seq<Job>, now: int): nat {
    if jobs == [] then 0 else CountRecent(jobs[..|jobs| - 1], now) + if Recent(jobs[|jobs| - 1], now) then 1 else 0
  }

  function RecentOnes(jobs: seq<Job>, now: int): seq<Job> {
    KeepByTerminal(KeepRetained(jobs, now), true)
  }

  lemma RecentStep(jobs: seq<Job>, now: int)
    requires jobs != []
    ensures var n := |jobs| - 1;
            RecentOnes(jobs, now) == RecentOnes(jobs[..n], now) + if Recent(jobs[n], now) then [jobs[n]] else []
  {
    var n := |jobs| - 1;
    var front := KeepRetained(jobs[..n], now);
    if Retained(jobs[n], now) {
      assert (front + [jobs[n]])[..|front|] == front;
    } else {
      assert front + [] == front;
    }
  }

  /** The last `n` recent jobs, counted from the end. */
  function LastRecent(jobs: seq<Job>, now: int, n: nat): seq<Job> {
    if jobs == [] then []
    else if !Recent(jobs[|jobs| - 1], now) then LastRecent(jobs[..|jobs| - 1], now, n)
    else if n == 0 then [] else LastRecent(jobs[..|jobs| - 1], now, n - 1) + [jobs[|jobs| - 1]]
  }

  lemma LastOfOneMore(a: seq<Job>, x: Job, n: nat)
    ensures LastN(a + [x], n) == if n == 0 then [] else LastN(a, n - 1) + [x]
  {
  }

  function OnlyRecent(jobs: seq<Job>, now: int): seq<Job> {
    if jobs == [] then []
    else OnlyRecent(jobs[..|jobs| - 1], now) + if Recent(jobs[|jobs| - 1], now) then [jobs[|jobs| - 1]] else []
  }

  lemma {:induction false} RecentOnesOnly(jobs: seq<Job>, now: int)
    ensures RecentOnes(jobs, now) == OnlyRecent(jobs, now)
  {
    if jobs != [] {
      RecentOnesOnly(jobs[..|jobs| - 1], now);
      RecentStep(jobs, now);
    }
  }

  lemma {:induction false} LastRecentOnes(jobs: seq<Job>, now: int, n: nat)
    ensures LastN(OnlyRecent(jobs, now), n) == LastRecent(jobs, now, n)
  {
    if jobs != [] {
      var m := |jobs| - 1;
      var before := OnlyRecent(jobs[..m], now);
      if !Recent(jobs[m], now) {
        assert before + [] == before;
        LastRecentOnes(jobs[..m], now, n);
      } else {
        LastOfOneMore(before, jobs[m], n);
        if n > 0 { LastRecentOnes(jobs[..m], now, n - 1); }
      }
    }
  }

  lemma CountRecentAfter(jobs: seq<Job>, now: int, k: nat)
    requires k + 1 < |jobs|
    ensures var m := |jobs| - 1;
            CountRecent(jobs[k + 1..], now) == CountRecent(jobs[..m][k + 1..], now) + if Recent(jobs[m], now) then 1 else 0
  {
    var m := |jobs| - 1;
    assert jobs[k + 1..][..m - k - 1] == jobs[..m][k + 1..];
  }

  lemma {:induction false} LastRecentIsOld(jobs: seq<Job>, now: int, n: nat, x: Job)
    requires x in LastRecent(jobs, now, n)
    ensures x in jobs
  {
    if jobs != [] {
      var m := |jobs| - 1;
      if !Recent(jobs[m], now) {
        LastRecentIsOld(jobs[..m], now, n, x);
      } else if x != jobs[m] {
        LastRecentIsOld(jobs[..m], now, n - 1, x);
      }
    }
  }

  lemma {:induction false} AmongLastRecent(jobs: seq<Job>, now: int, k: nat, n: nat)
    requires UniqueIds(jobs) && k < |jobs|
    ensures jobs[k] in LastRecent(jobs, now, n) <==> Recent(jobs[k], now) && CountRecent(jobs[k + 1..], now) < n
    decreases |jobs|
  {
    var m := |jobs| - 1;
    if k == m {
      assert jobs[k + 1..] == [];
      if !Recent(jobs[m], now) && jobs[m] in LastRecent(jobs[..m], now, n) { LastRecentIsOld(jobs[..m], now, n, jobs[m]); }
    } else {
      CountRecentAfter(jobs, now, k);
      if !Recent(jobs[m], now) {
        AmongLastRecent(jobs[..m], now, k, n);
      } else if n > 0 {
        AmongLastRecent(jobs[..m], now, k, n - 1);
      }
    }
  }

  /** What pruning keeps: every unfinished job, and a terminal one exactly when it is
      younger than a day and fewer than 2000 such are stored after it. */
  lemma KeptExactly(jobs: seq<Job>, now: int, k: nat)
    requires UniqueIds(jobs) && k < |jobs|
    ensures jobs[k] in Prune(jobs, now)
            <==> (Terminal(jobs[k].status) ==> Recent(jobs[k], now) && CountRecent(jobs[k + 1..], now) < 2000)
  {
    var retained := KeepRetained(jobs, now);
    KeepMembers(jobs, now, jobs[k]);
    KeepMembers(retained, now, jobs[k]);
    RecentOnesOnly(jobs, now);
    LastRecentOnes(jobs, now, MAX_TERMINAL);
    AmongLastRecent(jobs, now, k, MAX_TERMINAL);
    SortMembers(LastN(KeepByTerminal(retained, true), MAX_TERMINAL) + KeepByTerminal(retained, false), jobs[k]);
    PruneMembers(jobs, now, jobs[k]);
  }

  predicate SortedByCreation(jobs: seq<Job>) {
    forall i, j :: 0 <= i < j < |jobs| ==> jobs[i].createdAt <= jobs[j].createdAt
  }

  lemma {:induction false} InsertSorted(jobs: seq<Job>, j: Job)
    requires SortedByCreation(jobs)
    ensures SortedByCreation(Insert(jobs, j))
  {
    if jobs != [] && jobs[|jobs| - 1].createdAt > j.createdAt {
      var front := jobs[..|jobs| - 1];
      InsertSorted(front, j);
      forall x | x in Insert(front, j) ensures x.createdAt <= jobs[|jobs| - 1].createdAt {
        InsertMembers(front, j, x);
      }
    }
  }

  lemma {:induction false} SortSorted(jobs: seq<Job>)
    ensures SortedByCreation(SortByCreation(jobs))
  {
    if jobs != [] {
      SortSorted(jobs[..|jobs| - 1]);
      InsertSorted(SortByCreation(jobs[..|jobs| - 1]), jobs[|jobs| - 1]);
    }
  }

  lemma PruneSorted(jobs: seq<Job>, now: int)
    ensures SortedByCreation(Prune(jobs, now))
  {
    var retained := KeepRetained(jobs, now);
    SortSorted(LastN(KeepByTerminal(retained, true), MAX_TERMINAL) + KeepByTerminal(retained, false));
  }

  lemma SweepKeepsIdentity(j: Job, now: int)
    ensures Sweep(j, now).id == j.id && Sweep(j, now).createdAt == j.createdAt
  {
  }

  lemma SweptSorted(jobs: seq<Job>, now: int)
    requires SortedByCreation(jobs)
    ensures SortedByCreation(SweepAll(jobs, now))
  {
    forall i, j | 0 <= i < j < |jobs| ensures SweepAll(jobs, now)[i].createdAt <= SweepAll(jobs, now)[j].createdAt {
      SweepKeepsIdentity(jobs[i], now);
      SweepKeepsIdentity(jobs[j], now);
    }
  }

  predicate OldestClaimable(jobs: seq<Job>, c: Claim, id: string) {
    exists k :: 0 <= k < |jobs| && jobs[k].id == id && Claimable(jobs[k], c)
                && forall i :: 0 <= i < |jobs| && Claimable(jobs[i], c) ==> jobs[k].createdAt <= jobs[i].createdAt
  }

  lemma FirstIsOldest(jobs: seq<Job>, c: Claim)
    requires SortedByCreation(jobs) && FindClaimable(jobs, c).Some?
    ensures OldestClaimable(jobs, c, jobs[FindClaimable(jobs, c).value].id)
  {
    var k := FindClaimable(jobs, c).value;
    forall i | 0 <= i < |jobs| && Claimable(jobs[i], c) ensures jobs[k].createdAt <= jobs[i].createdAt {
      assert k <= i;
    }
  }

  predicate NothingClaimable(jobs: seq<Job>, c: Claim) {
    forall i :: 0 <= i < |jobs| ==> !Claimable(jobs[i], c)
  }

  lemma FoundOrNothing(jobs: seq<Job>, c: Claim)
    requires SortedByCreation(jobs)
    ensures var k := FindClaimable(jobs, c); if k.Some? then OldestClaimable(jobs, c, jobs[k.value].id) else NothingClaimable(jobs, c)
  {
    if FindClaimable(jobs, c).Some? { FirstIsOldest(jobs, c); }
  }

  lemma LeaseOnTakesOldest(swept: seq<Job>, c: Claim, now: int)
    requires SortedByCreation(swept)
    ensures var envelope := LeaseOn(swept, c, now).1;
            if envelope.Some? then OldestClaimable(swept, c, envelope.value.jobId) else NothingClaimable(swept, c)
  {
    FoundOrNothing(swept, c);
  }

  lemma ClaimOnTakesOldest(kept: seq<Job>, c: Claim, now: int)
    requires SortedByCreation(kept) && FindHeld(kept, c).None?
    ensures var swept, envelope := SweepAll(kept, now), ClaimOn(kept, c, now).1;
            if envelope.Some? then OldestClaimable(swept, c, envelope.value.jobId) else NothingClaimable(swept, c)
  {
    SweptSorted(kept, now);
    LeaseOnTakesOldest(SweepAll(kept, now), c, now);
  }

  /** Claims are served first come, first served: a claim that is not a repeat
      leases the oldest job claimable once the sweep ended, if there is one. */
  lemma ClaimTakesOldest(jobs: seq<Job>, c: Claim, now: int)
    requires FindHeld(Prune(jobs, now), c).None?
    ensures var swept, envelope := SweepAll(Prune(jobs, now), now), ClaimEdit(jobs, c, now).1;
            if envelope.Some? then OldestClaimable(swept, c, envelope.value.jobId) else NothingClaimable(swept, c)
  {
    PruneSorted(jobs, now);
    ClaimOnTakesOldest(Prune(jobs, now), c, now);
  }

  lemma {:induction false} CountAtMostOne(jobs: seq<Job>, id: string)
    ensures (Count(jobs, HasId(id)) == 0) <==> forall i :: 0 <= i < |jobs| ==> jobs[i].id != id
    ensures Count(jobs, HasId(id)) >= 2 <==> exists i, j :: 0 <= i < j < |jobs| && jobs[i].id == id && jobs[j].id == id
  {
    if jobs != [] {
      var n := |jobs| - 1;
      CountAtMostOne(jobs[..n], id);
      if Count(jobs, HasId(id)) >= 2 {
        if Count(jobs[..n], HasId(id)) >= 2 {
          var i, j :| 0 <= i < j < n && jobs[..n][i].id == id && jobs[..n][j].id == id;
          assert jobs[i].id == id && jobs[j].id == id;
        } else {
          var i :| 0 <= i < n && jobs[..n][i].id == id;
          assert jobs[i].id == id && jobs[n].id == id;
        }
      }
      if i, j :| 0 <= i < j < |jobs| && jobs[i].id == id && jobs[j].id == id {
        assert jobs[..n][i].id == id;
        if j < n { assert jobs[..n][j].id == id; }
      }
    }
  }

  lemma PruneUnique(jobs: seq<Job>, now: int)
    requires UniqueIds(jobs)
    ensures UniqueIds(Prune(jobs, now))
  {
    var kept := Prune(jobs, now);
    forall i, j | 0 <= i < j < |kept| ensures kept[i].id != kept[j].id {
      var id := kept[i].id;
      CountPrune(jobs, now, HasId(id));
      CountAtMostOne(jobs, id);
      CountAtMostOne(kept, id);
    }
  }

  // ---------------------------------------------------------------- runs

  datatype Op =
    | Enqueue(id: string, userId: string, tenantKey: string, environmentKey: string, arguments: string, timeoutMs: int, leaseMs: int)
    | ClaimJobs(c: Claim)
    | Complete(r: Report)
    | StopWaiting(id: string)
    | Consume(id: string, sawCompleted: bool)

  datatype Done = Done(jobId: string, token: Token, status: Status)

  /** The store, and what its callers have been told so far. */
  datatype System = System(
    jobs: seq<Job>,
    known: set<string>,              // ids ever enqueued
    issued: set<(string, Token)>,    // lease tokens ever handed out, by job id
    done: seq<Done>)                 // completions ever accepted

  const START := System([], {}, {}, [])

  /** Job ids are random and therefore fresh. */
  predicate Enabled(s: System, op: Op) {
    op.Enqueue? ==> op.id !in s.known
  }

  function Step(s: System, op: Op, now: int): System {
    match op
    case Enqueue(id, userId, tenantKey, environmentKey, arguments, timeoutMs, leaseMs) =>
      var edit := EnqueueEdit(s.jobs, NewJob(id, userId, tenantKey, environmentKey, arguments, timeoutMs, leaseMs, now), now);
      s.(jobs := OrElse(edit, s.jobs), known := s.known + {id})
    case ClaimJobs(c) =>
      var (jobs, envelope) := ClaimEdit(s.jobs, c, now);
      s.(jobs := jobs, issued := s.issued + if envelope.Some? then {(envelope.value.jobId, envelope.value.leaseToken)} else {})
    case Complete(r) =>
      var (jobs, outcome) := CompleteEdit(s.jobs, r);
      s.(jobs := jobs, done := s.done + if outcome.Accept? then [Done(r.jobId, r.token, outcome.status)] else [])
    case StopWaiting(id) => s.(jobs := GiveUpEdit(s.jobs, id, now))
    case Consume(id, sawCompleted) => s.(jobs := ConsumeEdit(s.jobs, id, sawCompleted, now))
  }

  ghost predicate Run(s: System, ops: seq<(Op, int)>, t: System)
    decreases |ops|
  {
    if ops == [] then s == t
    else Enabled(s, ops[0].0) && Run(Step(s, ops[0].0, ops[0].1), ops[1..], t)
  }

  // ----------------------------------------------------------- invariant

  ghost predicate JobInv(j: Job, issued: set<(string, Token)>, done: seq<Done>) {
    && (Accepted(j.status) <==> j.leaseHash.Some?)
    && (j.leaseHash.Some? ==> j.leaseHash.value.jobId == j.id && (j.id, j.leaseHash.value.token) in issued)
    && (j.leaseHash.Some? && j.claimKey.Some? ==> j.leaseHash.value.token == Derived(j.claimKey.value))
    && (j.status == Queued || j.status == Expired ==> forall t :: (j.id, t) !in issued)
    && (j.completionHash.Some? <==> j.status == Completed || j.status == Failed)
    && (j.completionHash.Some? ==> j.completionHash.value.jobId == j.id && Done(j.id, j.completionHash.value.token, j.status) in done)
    && (forall d :: d in done && d.jobId == j.id ==> j.completionHash == Some(LeaseHash(j.id, d.token)) && j.status == d.status)
    && (j.status == Leased ==> j.leaseExpiresAt.Some? && j.reconcileExpiresAt.None?)
    && (j.status == OutcomeUnknown ==> j.reconcileExpiresAt.Some?)
    && (j.status == Queued ==> j.reconcileExpiresAt.None?)
  }

  ghost predicate HistoryInv(s: System) {
    && (forall p :: p in s.issued ==> p.0 in s.known)
    && (forall p, q :: p in s.issued && q in s.issued && p.0 == q.0 ==> p == q)
    && (forall i :: 0 <= i < |s.done| ==> (s.done[i].jobId, s.done[i].token) in s.issued)
    && (forall i, j :: 0 <= i < j < |s.done| ==> s.done[i].jobId != s.done[j].jobId)
  }

  ghost predicate Inv(s: System) {
    && UniqueIds(s.jobs)
    && (forall k :: 0 <= k < |s.jobs| ==> s.jobs[k].id in s.known && JobInv(s.jobs[k], s.issued, s.done))
    && HistoryInv(s)
  }

  lemma InvAfterPrune(s: System, now: int)
    requires Inv(s)
    ensures Inv(s.(jobs := Prune(s.jobs, now)))
  {
    PruneUnique(s.jobs, now);
    var kept := Prune(s.jobs, now);
    forall k | 0 <= k < |kept|
      ensures kept[k].id in s.known && JobInv(kept[k], s.issued, s.done)
    {
      PruneMembers(s.jobs, now, kept[k]);
    }
  }

  lemma SweepKeepsJobInv(j: Job, now: int, issued: set<(string, Token)>, done: seq<Done>)
    requires JobInv(j, issued, done)
    ensures JobInv(Sweep(j, now), issued, done) && Sweep(j, now).id == j.id
  {
  }

  lemma SweepUnique(jobs: seq<Job>, now: int)
    requires UniqueIds(jobs)
    ensures UniqueIds(SweepAll(jobs, now))
  {
    var swept := SweepAll(jobs, now);
    forall i, j | 0 <= i < j < |swept| ensures swept[i].id != swept[j].id {
      assert swept[i] == Sweep(jobs[i], now) && swept[j] == Sweep(jobs[j], now);
    }
  }

  lemma InvReplaced(s: System, jobs: seq<Job>)
    requires Inv(s) && UniqueIds(jobs)
    requires forall k :: 0 <= k < |jobs| ==> jobs[k].id in s.known && JobInv(jobs[k], s.issued, s.done)
    ensures Inv(s.(jobs := jobs))
  {
  }

  lemma InvAfterSweep(s: System, now: int)
    requires Inv(s)
    ensures Inv(s.(jobs := SweepAll(s.jobs, now)))
  {
    var swept := SweepAll(s.jobs, now);
    SweepUnique(s.jobs, now);
    forall k | 0 <= k < |swept| ensures swept[k].id in s.known && JobInv(swept[k], s.issued, s.done) {
      SweepKeepsJobInv(s.jobs[k], now, s.issued, s.done);
    }
    InvReplaced(s, swept);
  }

  /** Changing one job, and adding history about that job only. */
  lemma InvAfterChange(s: System, k: nat, j: Job, issued: set<(string, Token)>, done: seq<Done>)
    requires Inv(s) && k < |s.jobs| && j.id == s.jobs[k].id
    requires s.issued <= issued && forall p :: p in issued && p !in s.issued ==> p.0 == j.id
    requires s.done <= done && forall i :: |s.done| <= i < |done| ==> done[i].jobId == j.id
    requires HistoryInv(s.(issued := issued, done := done))
    requires JobInv(j, issued, done)
    ensures Inv(s.(jobs := s.jobs[k := j], issued := issued, done := done))
  {
    var t := s.(jobs := s.jobs[k := j], issued := issued, done := done);
    forall i | 0 <= i < |t.jobs| ensures t.jobs[i].id in t.known && JobInv(t.jobs[i], t.issued, t.done) {
      if i != k {
        forall d | d in done && d.jobId == t.jobs[i].id ensures d in s.done {
          var n :| 0 <= n < |done| && done[n] == d;
        }
        assert forall d :: d in s.done ==> d in done;
      }
    }
  }

  lemma InvHeldOn(s: System, c: Claim, now: int)
    requires Inv(s) && FindHeld(s.jobs, c).Some?
    ensures ClaimOn(s.jobs, c, now).0 == s.jobs
    ensures var envelope := ClaimOn(s.jobs, c, now).1;
            envelope.Some? ==> (envelope.value.jobId, envelope.value.leaseToken) in s.issued
  {
    var j := s.jobs[FindHeld(s.jobs, c).value];
    assert JobInv(j, s.issued, s.done);
  }

  lemma InvAfterHeldClaim(s: System, c: Claim, now: int)
    requires Inv(s) && FindHeld(Prune(s.jobs, now), c).Some?
    ensures Inv(Step(s, ClaimJobs(c), now))
  {
    var pruned := s.(jobs := Prune(s.jobs, now));
    InvAfterPrune(s, now);
    InvHeldOn(pruned, c, now);
    assert Step(s, ClaimJobs(c), now).issued == s.issued;
    assert Step(s, ClaimJobs(c), now) == pruned;
  }

  lemma LeaseKeepsJobInv(j: Job, c: Claim, now: int, issued: set<(string, Token)>, done: seq<Done>)
    requires JobInv(j, issued, done) && j.status == Queued
    ensures JobInv(Lease(j, c, now), issued + {(j.id, LeaseToken(c))}, done)
  {
  }

  lemma InvAfterLease(s: System, c: Claim, now: int, k: nat)
    requires Inv(s) && k < |s.jobs| && s.jobs[k].status == Queued
    ensures Inv(s.(jobs := s.jobs[k := Lease(s.jobs[k], c, now)], issued := s.issued + {(s.jobs[k].id, LeaseToken(c))}))
  {
    LeaseKeepsJobInv(s.jobs[k], c, now, s.issued, s.done);
    InvAfterChange(s, k, Lease(s.jobs[k], c, now), s.issued + {(s.jobs[k].id, LeaseToken(c))}, s.done);
  }

  function ClaimedOn(s: System, c: Claim, now: int): System {
    var (jobs, envelope) := ClaimOn(s.jobs, c, now);
    s.(jobs := jobs, issued := s.issued + if envelope.Some? then {(envelope.value.jobId, envelope.value.leaseToken)} else {})
  }

  lemma InvFreshOn(s: System, c: Claim, now: int)
    requires Inv(s) && FindHeld(s.jobs, c).None?
    ensures Inv(ClaimedOn(s, c, now))
  {
    var swept := SweepAll(s.jobs, now);
    InvAfterSweep(s, now);
    var k := FindClaimable(swept, c);
    if k.Some? {
      InvAfterLease(s.(jobs := swept), c, now, k.value);
    } else {
      assert s.issued + {} == s.issued;
    }
  }

  lemma InvAfterFreshClaim(s: System, c: Claim, now: int)
    requires Inv(s) && FindHeld(Prune(s.jobs, now), c).None?
    ensures Inv(Step(s, ClaimJobs(c), now))
  {
    InvAfterPrune(s, now);
    InvFreshOn(s.(jobs := Prune(s.jobs, now)), c, now);
  }

  lemma InvAfterClaim(s: System, c: Claim, now: int)
    requires Inv(s)
    ensures Inv(Step(s, ClaimJobs(c), now))
  {
    if FindHeld(Prune(s.jobs, now), c).Some? {
      InvAfterHeldClaim(s, c, now);
    } else {
      InvAfterFreshClaim(s, c, now);
    }
  }

  lemma InvAfterAccept(s: System, r: Report, k: nat)
    requires Inv(s) && k < |s.jobs| && s.jobs[k].id == r.jobId && CompletionFor(s.jobs[k], r).Accept?
    ensures var j := Finish(s.jobs[k], r);
            Inv(s.(jobs := s.jobs[k := j], done := s.done + [Done(r.jobId, r.token, j.status)]))
  {
    var j := Finish(s.jobs[k], r);
    var done := s.done + [Done(r.jobId, r.token, j.status)];
    assert JobInv(s.jobs[k], s.issued, s.done);
    assert forall d :: d in s.done ==> d.jobId != r.jobId;
    assert done[|s.done|] in done;
    InvAfterChange(s, k, j, s.issued, done);
  }

  lemma InvAfterComplete(s: System, r: Report, now: int)
    requires Inv(s)
    ensures Inv(Step(s, Complete(r), now))
  {
    assert s.done + [] == s.done;
    var k := FindOwned(s.jobs, r.jobId, r.userId);
    if k.Some? && CompletionFor(s.jobs[k.value], r).Accept? { InvAfterAccept(s, r, k.value); }
  }

  lemma InvAppend(s: System, job: Job)
    requires Inv(s) && job.id !in s.known && job.status == Queued
    requires job.claimKey.None? && job.leaseHash.None? && job.completionHash.None? && job.reconcileExpiresAt.None?
    ensures Inv(s.(jobs := s.jobs + [job], known := s.known + {job.id}))
  {
    assert forall d :: d in s.done ==> (d.jobId, d.token) in s.issued;
    assert JobInv(job, s.issued, s.done);
  }

  lemma InvKnown(s: System, id: string)
    requires Inv(s)
    ensures Inv(s.(known := s.known + {id}))
  {
  }

  lemma InvAfterEnqueue(s: System, op: Op, now: int)
    requires Inv(s) && op.Enqueue? && Enabled(s, op)
    ensures Inv(Step(s, op, now))
  {
    var job := NewJob(op.id, op.userId, op.tenantKey, op.environmentKey, op.arguments, op.timeoutMs, op.leaseMs, now);
    if EnqueueEdit(s.jobs, job, now).Some? {
      InvAfterPrune(s, now);
      InvAppend(s.(jobs := Prune(s.jobs, now)), job);
    } else {
      InvKnown(s, op.id);
    }
  }

  lemma InvStep(s: System, op: Op, now: int)
    requires Inv(s) && Enabled(s, op)
    ensures Inv(Step(s, op, now))
  {
    match op {
      case Enqueue(_, _, _, _, _, _, _) => InvAfterEnqueue(s, op, now);
      case ClaimJobs(c) => InvAfterClaim(s, c, now);
      case Complete(r) => InvAfterComplete(s, r, now);
      case StopWaiting(id) =>
        var k := FindId(s.jobs, id);
        if k.Some? { InvAfterChange(s, k.value, GiveUp(s.jobs[k.value], now), s.issued, s.done); }
      case Consume(id, sawCompleted) =>
        var k := FindId(s.jobs, id);
        if k.Some? { InvAfterChange(s, k.value, Discard(s.jobs[k.value], now), s.issued, s.done); }
    }
  }

  lemma {:induction false} InvRun(s: System, ops: seq<(Op, int)>, t: System)
    requires Inv(s) && Run(s, ops, t)
    ensures Inv(t)
    decreases |ops|
  {
    if ops != [] {
      InvStep(s, ops[0].0, ops[0].1);
      InvRun(Step(s, ops[0].0, ops[0].1), ops[1..], t);
    }
  }

  // -------------------------------------------------------- what it means

  /** Every envelope ever handed out for a job carries one and the same token,
      every accepted completion presented that token, and no job completes twice. */
  lemma {:induction false} OneTokenPerJob(ops: seq<(Op, int)>, s: System)
    requires Run(START, ops, s)
    ensures forall p, q :: p in s.issued && q in s.issued && p.0 == q.0 ==> p.1 == q.1
    ensures forall i :: 0 <= i < |s.done| ==> (s.done[i].jobId, s.done[i].token) in s.issued
    ensures forall i, j :: 0 <= i < j < |s.done| ==> s.done[i].jobId != s.done[j].jobId
  {
    InvRun(START, ops, s);
  }

  /** A report is accepted exactly when its job is leased or uncertain and its
      token is one that was handed out for that job. */
  lemma {:induction false} OnlyTheHolderCompletes(ops: seq<(Op, int)>, s: System, r: Report, k: nat)
    requires Run(START, ops, s)
    requires k < |s.jobs| && s.jobs[k].id == r.jobId && s.jobs[k].userId == r.userId
    ensures CompleteEdit(s.jobs, r).1.Accept? <==> Accepted(s.jobs[k].status) && (r.jobId, r.token) in s.issued
  {
    InvRun(START, ops, s);
    assert FindOwned(s.jobs, r.jobId, r.userId) == Some(k);
  }

  /** Once a report was accepted, the same token gets the same status for as long
      as the job is kept, nothing changes, and every other token is refused. */
  lemma {:induction false} RepeatedReport(ops: seq<(Op, int)>, s: System, d: Done, r: Report, k: nat)
    requires Run(START, ops, s) && d in s.done && r.jobId == d.jobId
    requires k < |s.jobs| && s.jobs[k].id == r.jobId && s.jobs[k].userId == r.userId
    ensures CompleteEdit(s.jobs, r) == (s.jobs, if r.token == d.token then Acknowledged(d.status) else NotLeased)
  {
    InvRun(START, ops, s);
    assert FindOwned(s.jobs, r.jobId, r.userId) == Some(k);
  }

  /** The order statuses move in. */
  predicate MayBecome(a: Status, b: Status) {
    match a
    case Queued => true
    case Leased => b != Queued && b != Expired
    case OutcomeUnknown => b != Queued && b != Expired && b != Leased
    case _ => b == a
  }

  function Lookup(jobs: seq<Job>, id: string): Option<Job> {
    match FindId(jobs, id)
    case None => None
    case Some(k) => Some(jobs[k])
  }

  /** What may become of one job between two states. */
  predicate Evolves(before: Option<Job>, after: Option<Job>) {
    match before
    case None => after.None?
    case Some(j) =>
      after.Some? ==> MayBecome(j.status, after.value.status)
                      && (Terminal(j.status) ==> after.value.completionHash == j.completionHash)
  }

  /** Only a terminal job may be gone. */
  predicate Survives(before: Option<Job>, after: Option<Job>) {
    before.Some? && after.None? ==> Terminal(before.value.status)
  }

  lemma LookupMember(jobs: seq<Job>, k: nat)
    requires UniqueIds(jobs) && k < |jobs|
    ensures Lookup(jobs, jobs[k].id) == Some(jobs[k])
  {
  }

  lemma PruneEvolves(jobs: seq<Job>, now: int, id: string)
    requires UniqueIds(jobs)
    ensures var kept := Lookup(Prune(jobs, now), id);
            Lookup(jobs, id) == kept || (kept.None? && Terminal(Lookup(jobs, id).value.status))
  {
    PruneUnique(jobs, now);
    var kept := Prune(jobs, now);
    match FindId(kept, id) {
      case Some(k) =>
        PruneMembers(jobs, now, kept[k]);
        var i :| 0 <= i < |jobs| && jobs[i] == kept[k];
        LookupMember(jobs, i);
      case None =>
        if k :| 0 <= k < |jobs| && jobs[k].id == id {
          LookupMember(jobs, k);
          PruneMembers(jobs, now, jobs[k]);
        }
    }
  }

  lemma SweepMoves(j: Job, now: int)
    ensures Sweep(j, now).id == j.id && Evolves(Some(j), Some(Sweep(j, now)))
  {
  }

  lemma SweepEvolves(jobs: seq<Job>, now: int, id: string)
    requires UniqueIds(jobs)
    ensures UniqueIds(SweepAll(jobs, now))
    ensures Evolves(Lookup(jobs, id), Lookup(SweepAll(jobs, now), id))
    ensures Lookup(jobs, id).Some? <==> Lookup(SweepAll(jobs, now), id).Some?
  {
    var swept := SweepAll(jobs, now);
    forall i | 0 <= i < |jobs| ensures swept[i].id == jobs[i].id {
      SweepMoves(jobs[i], now);
    }
    var k := FindId(jobs, id);
    if k.Some? {
      LookupMember(swept, k.value);
      SweepMoves(jobs[k.value], now);
    }
  }

  lemma ChangeEvolves(jobs: seq<Job>, k: nat, j: Job, id: string)
    requires UniqueIds(jobs) && k < |jobs| && j.id == jobs[k].id && Evolves(Some(jobs[k]), Some(j))
    ensures Evolves(Lookup(jobs, id), Lookup(jobs[k := j], id))
    ensures Lookup(jobs, id).Some? <==> Lookup(jobs[k := j], id).Some?
  {
    var i := FindId(jobs, id);
    if i.Some? {
      LookupMember(jobs[k := j], i.value);
    }
  }

  lemma EvolvesOn(a: Option<Job>, b: Option<Job>, c: Option<Job>)
    requires Evolves(a, b) && Evolves(b, c)
    ensures Evolves(a, c)
  {
  }

  lemma LeaseEvolves(jobs: seq<Job>, c: Claim, now: int, id: string)
    requires UniqueIds(jobs)
    ensures var swept := SweepAll(jobs, now);
            var after := if FindClaimable(swept, c).None? then swept
                         else swept[FindClaimable(swept, c).value := Lease(swept[FindClaimable(swept, c).value], c, now)];
            Evolves(Lookup(jobs, id), Lookup(after, id)) && (Lookup(jobs, id).Some? <==> Lookup(after, id).Some?)
  {
    var swept := SweepAll(jobs, now);
    SweepEvolves(jobs, now, id);
    var k := FindClaimable(swept, c);
    if k.Some? {
      var leased := Lease(swept[k.value], c, now);
      ChangeEvolves(swept, k.value, leased, id);
      EvolvesOn(Lookup(jobs, id), Lookup(swept, id), Lookup(swept[k.value := leased], id));
    }
  }

  lemma ClaimEvolves(jobs: seq<Job>, c: Claim, now: int, id: string)
    requires UniqueIds(jobs)
    ensures var after := Lookup(ClaimEdit(jobs, c, now).0, id);
            Evolves(Lookup(jobs, id), after) && Survives(Lookup(jobs, id), after)
  {
    var kept := Prune(jobs, now);
    PruneEvolves(jobs, now, id);
    PruneUnique(jobs, now);
    if FindHeld(kept, c).None? {
      LeaseEvolves(kept, c, now, id);
      EvolvesOn(Lookup(jobs, id), Lookup(kept, id), Lookup(ClaimEdit(jobs, c, now).0, id));
    }
  }

  lemma AppendLookup(kept: seq<Job>, job: Job, id: string)
    requires job.id != id
    ensures Lookup(kept + [job], id) == Lookup(kept, id)
  {
    assert (kept + [job])[..|kept|] == kept;
  }

  lemma EnqueueEvolves(s: System, op: Op, now: int, id: string)
    requires Inv(s) && op.Enqueue? && Enabled(s, op) && id in s.known
    ensures Evolves(Lookup(s.jobs, id), Lookup(Step(s, op, now).jobs, id))
    ensures Survives(Lookup(s.jobs, id), Lookup(Step(s, op, now).jobs, id))
  {
    var job := NewJob(op.id, op.userId, op.tenantKey, op.environmentKey, op.arguments, op.timeoutMs, op.leaseMs, now);
    PruneEvolves(s.jobs, now, id);
    AppendLookup(Prune(s.jobs, now), job, id);
  }

  /** One call: jobs move forward, and only terminal jobs disappear. */
  lemma StepEvolves(s: System, op: Op, now: int, id: string)
    requires Inv(s) && Enabled(s, op) && id in s.known
    ensures Evolves(Lookup(s.jobs, id), Lookup(Step(s, op, now).jobs, id))
    ensures Survives(Lookup(s.jobs, id), Lookup(Step(s, op, now).jobs, id))
  {
    match op {
      case Enqueue(_, _, _, _, _, _, _) => EnqueueEvolves(s, op, now, id);
      case ClaimJobs(c) => ClaimEvolves(s.jobs, c, now, id);
      case Complete(r) =>
        var k := FindOwned(s.jobs, r.jobId, r.userId);
        if k.Some? && CompletionFor(s.jobs[k.value], r).Accept? {
          ChangeEvolves(s.jobs, k.value, Finish(s.jobs[k.value], r), id);
        }
      case StopWaiting(x) =>
        var k := FindId(s.jobs, x);
        if k.Some? { ChangeEvolves(s.jobs, k.value, GiveUp(s.jobs[k.value], now), id); }
      case Consume(x, _) =>
        var k := FindId(s.jobs, x);
        if k.Some? { ChangeEvolves(s.jobs, k.value, Discard(s.jobs[k.value], now), id); }
    }
  }

  /** Over every run: a job never returns to the queue, terminal statuses are
      absorbing, and what is gone stays gone. */
  lemma {:induction false} JobsMoveForward(s: System, ops: seq<(Op, int)>, t: System, id: string)
    requires Inv(s) && Run(s, ops, t) && id in s.known
    ensures Evolves(Lookup(s.jobs, id), Lookup(t.jobs, id))
    decreases |ops|
  {
    if ops != [] {
      var u := Step(s, ops[0].0, ops[0].1);
      InvStep(s, ops[0].0, ops[0].1);
      StepEvolves(s, ops[0].0, ops[0].1, id);
      JobsMoveForward(u, ops[1..], t, id);
      EvolvesOn(Lookup(s.jobs, id), Lookup(u.jobs, id), Lookup(t.jobs, id));
    }
  }

  // ------------------------------------------------- bound on active jobs

  lemma {:induction false} CountSweep(jobs: seq<Job>, now: int, user: string)
    ensures Count(SweepAll(jobs, now), ActiveFor(user)) <= Count(jobs, ActiveFor(user))
  {
    if jobs != [] {
      CountSweep(jobs[..|jobs| - 1], now, user);
      assert SweepAll(jobs, now)[..|jobs| - 1] == SweepAll(jobs[..|jobs| - 1], now);
    }
  }

  lemma {:induction false} CountChange(jobs: seq<Job>, k: nat, j: Job, user: string)
    requires k < |jobs| && j.userId == jobs[k].userId && (Terminal(jobs[k].status) ==> Terminal(j.status))
    ensures Count(jobs[k := j], ActiveFor(user)) <= Count(jobs, ActiveFor(user))
  {
    var n := |jobs| - 1;
    if k == n {
      assert jobs[k := j][..n] == jobs[..n];
    } else {
      assert jobs[k := j][..n] == jobs[..n][k := j];
      CountChange(jobs[..n], k, j, user);
    }
  }

  ghost predicate Bounded(jobs: seq<Job>) {
    forall user :: Count(jobs, ActiveFor(user)) <= MAX_PENDING
  }

  lemma ClaimBounded(jobs: seq<Job>, c: Claim, now: int, user: string)
    ensures Count(ClaimEdit(jobs, c, now).0, ActiveFor(user)) <= Count(jobs, ActiveFor(user))
  {
    var kept := Prune(jobs, now);
    CountPrune(jobs, now, ActiveFor(user));
    if FindHeld(kept, c).None? {
      var swept := SweepAll(kept, now);
      CountSweep(kept, now, user);
      var k := FindClaimable(swept, c);
      if k.Some? { CountChange(swept, k.value, Lease(swept[k.value], c, now), user); }
    }
  }

  lemma AppendBounded(kept: seq<Job>, job: Job, user: string)
    requires Count(kept, ActiveFor(user)) <= MAX_PENDING && EnqueueOn(kept, job).Some?
    ensures Count(EnqueueOn(kept, job).value, ActiveFor(user)) <= MAX_PENDING
  {
    CountOptional(kept, job, true, ActiveFor(user));
  }

  lemma EnqueueBounded(jobs: seq<Job>, job: Job, now: int, user: string)
    requires Count(jobs, ActiveFor(user)) <= MAX_PENDING && EnqueueEdit(jobs, job, now).Some?
    ensures Count(EnqueueEdit(jobs, job, now).value, ActiveFor(user)) <= MAX_PENDING
  {
    CountPrune(jobs, now, ActiveFor(user));
    AppendBounded(Prune(jobs, now), job, user);
  }

  lemma StepBounded(s: System, op: Op, now: int, user: string)
    requires Bounded(s.jobs)
    ensures Count(Step(s, op, now).jobs, ActiveFor(user)) <= MAX_PENDING
  {
    assert Count(s.jobs, ActiveFor(user)) <= MAX_PENDING;
    match op {
      case Enqueue(id, userId, tenantKey, environmentKey, arguments, timeoutMs, leaseMs) =>
        var job := NewJob(id, userId, tenantKey, environmentKey, arguments, timeoutMs, leaseMs, now);
        if EnqueueEdit(s.jobs, job, now).Some? { EnqueueBounded(s.jobs, job, now, user); }
      case ClaimJobs(c) => ClaimBounded(s.jobs, c, now, user);
      case Complete(r) =>
        var k := FindOwned(s.jobs, r.jobId, r.userId);
        if k.Some? { CountChange(s.jobs, k.value, Finish(s.jobs[k.value], r), user); }
      case StopWaiting(id) =>
        var k := FindId(s.jobs, id);
        if k.Some? { CountChange(s.jobs, k.value, GiveUp(s.jobs[k.value], now), user); }
      case Consume(id, _) =>
        var k := FindId(s.jobs, id);
        if k.Some? { CountChange(s.jobs, k.value, Discard(s.jobs[k.value], now), user); }
    }
  }

  /** No user ever has more than fifty unfinished jobs. */
  lemma {:induction false} AtMostFiftyActive(s: System, ops: seq<(Op, int)>, t: System)
    requires Bounded(s.jobs) && Run(s, ops, t)
    ensures Bounded(t.jobs)
    decreases |ops|
  {
    if ops != [] {
      forall user ensures Count(Step(s, ops[0].0, ops[0].1).jobs, ActiveFor(user)) <= MAX_PENDING {
        StepBounded(s, ops[0].0, ops[0].1, user);
      }
      AtMostFiftyActive(Step(s, ops[0].0, ops[0].1), ops[1..], t);
    }
  }

  // ------------------------------------------------------ repeated claims

  /** At most one job of a user is marked with a given claim. */
  ghost predicate OneHolderPerKey(jobs: seq<Job>) {
    forall x, y :: x in jobs && y in jobs && x.userId == y.userId && x.claimKey.Some? && x.claimKey == y.claimKey ==> x.id == y.id
  }

  lemma SameKeysSameHolders(jobs: seq<Job>, after: seq<Job>)
    requires OneHolderPerKey(jobs)
    requires forall y :: y in after && y.claimKey.Some? ==>
               exists x :: x in jobs && x.id == y.id && x.userId == y.userId && x.claimKey == y.claimKey
    ensures OneHolderPerKey(after)
  {
  }

  lemma SweptKeys(jobs: seq<Job>, now: int, y: Job)
    requires y in SweepAll(jobs, now) && y.claimKey.Some?
    ensures exists x :: x in jobs && x.id == y.id && x.userId == y.userId && x.claimKey == y.claimKey
  {
    var i :| 0 <= i < |jobs| && y == SweepAll(jobs, now)[i];
    assert jobs[i] in jobs && jobs[i].id == y.id;
  }

  lemma PrunedOneHolder(jobs: seq<Job>, now: int)
    requires OneHolderPerKey(jobs)
    ensures OneHolderPerKey(Prune(jobs, now))
  {
    forall y | y in Prune(jobs, now) ensures y in jobs {
      PruneMembers(jobs, now, y);
    }
  }

  lemma SweptOneHolder(jobs: seq<Job>, now: int)
    requires OneHolderPerKey(jobs)
    ensures OneHolderPerKey(SweepAll(jobs, now))
  {
    var swept := SweepAll(jobs, now);
    forall y | y in swept && y.claimKey.Some?
      ensures exists x :: x in jobs && x.id == y.id && x.userId == y.userId && x.claimKey == y.claimKey
    {
      SweptKeys(jobs, now, y);
    }
    SameKeysSameHolders(jobs, swept);
  }

  lemma SweptNotHeld(jobs: seq<Job>, c: Claim, now: int)
    requires FindHeld(jobs, c).None?
    ensures forall y :: y in SweepAll(jobs, now) ==> !HeldByKey(y, c)
  {
    forall y | y in SweepAll(jobs, now) ensures !HeldByKey(y, c) {
      if HeldByKey(y, c) {
        SweptKeys(jobs, now, y);
      }
    }
  }

  lemma LeasedOneHolder(jobs: seq<Job>, k: nat, c: Claim, now: int)
    requires OneHolderPerKey(jobs) && k < |jobs| && jobs[k].userId == c.userId
    requires forall y :: y in jobs ==> !HeldByKey(y, c)
    ensures OneHolderPerKey(jobs[k := Lease(jobs[k], c, now)])
  {
    var j := Lease(jobs[k], c, now);
    var after := jobs[k := j];
    forall x, y | x in after && y in after && x.userId == y.userId && x.claimKey.Some? && x.claimKey == y.claimKey
      ensures x.id == y.id
    {
      assert x == j || x in jobs;
      assert y == j || y in jobs;
    }
  }

  lemma ClaimOneHolder(jobs: seq<Job>, c: Claim, now: int)
    requires OneHolderPerKey(jobs)
    ensures OneHolderPerKey(ClaimEdit(jobs, c, now).0)
  {
    var kept := Prune(jobs, now);
    PrunedOneHolder(jobs, now);
    if FindHeld(kept, c).None? {
      var swept := SweepAll(kept, now);
      SweptOneHolder(kept, now);
      SweptNotHeld(kept, c, now);
      var k := FindClaimable(swept, c);
      if k.Some? { LeasedOneHolder(swept, k.value, c, now); }
    }
  }

  lemma ChangeOneHolder(jobs: seq<Job>, k: nat, j: Job)
    requires OneHolderPerKey(jobs) && k < |jobs|
    requires j.id == jobs[k].id && j.userId == jobs[k].userId && j.claimKey == jobs[k].claimKey
    ensures OneHolderPerKey(jobs[k := j])
  {
    var after := jobs[k := j];
    forall y | y in after
      ensures exists x :: x in jobs && x.id == y.id && x.userId == y.userId && x.claimKey == y.claimKey
    {
      assert jobs[k] in jobs;
      assert y == j || y in jobs;
    }
  }

  lemma EnqueueOneHolder(jobs: seq<Job>, job: Job, now: int)
    requires OneHolderPerKey(jobs) && job.claimKey.None?
    ensures OneHolderPerKey(OrElse(EnqueueEdit(jobs, job, now), jobs))
  {
    PrunedOneHolder(jobs, now);
    var after := Prune(jobs, now) + [job];
    assert forall y :: y in after ==> y in Prune(jobs, now) || y == job;
  }

  lemma StepOneHolder(s: System, op: Op, now: int)
    requires OneHolderPerKey(s.jobs)
    ensures OneHolderPerKey(Step(s, op, now).jobs)
  {
    match op {
      case Enqueue(id, userId, tenantKey, environmentKey, arguments, timeoutMs, leaseMs) =>
        EnqueueOneHolder(s.jobs, NewJob(id, userId, tenantKey, environmentKey, arguments, timeoutMs, leaseMs, now), now);
      case ClaimJobs(c) => ClaimOneHolder(s.jobs, c, now);
      case Complete(r) =>
        var k := FindOwned(s.jobs, r.jobId, r.userId);
        if k.Some? { ChangeOneHolder(s.jobs, k.value, Finish(s.jobs[k.value], r)); }
      case StopWaiting(id) =>
        var k := FindId(s.jobs, id);
        if k.Some? { ChangeOneHolder(s.jobs, k.value, GiveUp(s.jobs[k.value], now)); }
      case Consume(id, _) =>
        var k := FindId(s.jobs, id);
        if k.Some? { ChangeOneHolder(s.jobs, k.value, Discard(s.jobs[k.value], now)); }
    }
  }

  lemma {:induction false} OneHolderAlways(s: System, ops: seq<(Op, int)>, t: System)
    requires OneHolderPerKey(s.jobs) && Run(s, ops, t)
    ensures OneHolderPerKey(t.jobs)
    decreases |ops|
  {
    if ops != [] {
      StepOneHolder(s, ops[0].0, ops[0].1);
      OneHolderAlways(Step(s, ops[0].0, ops[0].1), ops[1..], t);
    }
  }

  lemma HeldAmong(jobs: seq<Job>, kept: seq<Job>, c: Claim, j: Job)
    requires UniqueIds(jobs) && OneHolderPerKey(jobs) && j in jobs && j in kept && HeldByKey(j, c)
    requires forall x :: x in kept ==> x in jobs
    ensures FindHeld(kept, c).Some? && kept[FindHeld(kept, c).value] == j
  {
    assert FindHeld(kept, c).Some?;
    var x := kept[FindHeld(kept, c).value];
    assert x in kept;
    var a :| 0 <= a < |jobs| && jobs[a] == x;
    var b :| 0 <= b < |jobs| && jobs[b] == j;
    assert jobs[a].id == jobs[b].id;
  }

  lemma HeldIsThatJob(jobs: seq<Job>, c: Claim, now: int, j: Job)
    requires UniqueIds(jobs) && OneHolderPerKey(jobs) && j in jobs && j.status == Leased && HeldByKey(j, c)
    ensures var kept := Prune(jobs, now);
            FindHeld(kept, c).Some? && kept[FindHeld(kept, c).value] == j
  {
    PruneMembers(jobs, now, j);
    forall x | x in Prune(jobs, now) ensures x in jobs { PruneMembers(jobs, now, x); }
    HeldAmong(jobs, Prune(jobs, now), c, j);
  }

  /** Delivering a claim again while its job is leased leases nothing new and
      hands out the same job under the token already issued for it. */
  lemma {:induction false} RepeatedClaim(ops: seq<(Op, int)>, s: System, c: Claim, now: int, j: Job)
    requires Run(START, ops, s) && j in s.jobs && j.status == Leased && HeldByKey(j, c)
    ensures ClaimEdit(s.jobs, c, now) == (Prune(s.jobs, now), Some(EnvelopeOf(j, LeaseToken(c))))
    ensures (j.id, LeaseToken(c)) in s.issued
  {
    InvRun(START, ops, s);
    OneHolderAlways(START, ops, s);
    HeldIsThatJob(s.jobs, c, now, j);
    var k :| 0 <= k < |s.jobs| && s.jobs[k] == j;
    assert JobInv(s.jobs[k], s.issued, s.done);
  }

  // -------------------------------------------- the status a poll reports

  /** The status `getDesktopOperation` reports for a stored job. */
  function ReportedStatus(j: Job, now: int): Status {
    var a := if j.status == Queued && j.expiresAt <= now then Expired else j.status;
    var b := if a == Leased && OrElse(j.leaseExpiresAt, j.expiresAt) <= now then OutcomeUnknown else a;
    if b == OutcomeUnknown && OrElse(j.reconcileExpiresAt, 0) <= now then ExpiredUnreconciled else b
  }

  /** A poll and a sweep at the same instant agree exactly on the jobs whose lease
      has not run out: a stale lease is reported as never reconciled at once,
      while the sweep still grants it the reconciliation window. */
  lemma {:induction false} PollAgreesWithSweep(ops: seq<(Op, int)>, s: System, k: nat, now: nat)
    requires Run(START, ops, s) && k < |s.jobs|
    ensures ReportedStatus(s.jobs[k], now) == Sweep(s.jobs[k], now).status <==> !LeaseOver(s.jobs[k], now)
  {
    InvRun(START, ops, s);
  }

  lemma {:induction false} SortOne(jobs: seq<Job>)
    requires |jobs| <= 1
    ensures SortByCreation(jobs) == jobs
  {
    if |jobs| == 1 {
      assert jobs[..0] == [] && SortByCreation(jobs[..0]) == [];
      assert Insert([], jobs[0]) == [] + [jobs[0]] == jobs;
    }
  }

  lemma {:induction false} KeepOne(jobs: seq<Job>, now: int)
    requires |jobs| <= 1 && forall k :: 0 <= k < |jobs| ==> !Terminal(jobs[k].status)
    ensures KeepRetained(jobs, now) == jobs && KeepByTerminal(jobs, true) == [] && KeepByTerminal(jobs, false) == jobs
  {
    if |jobs| == 1 {
      assert jobs[..0] == [] && jobs == [] + [jobs[0]];
      assert Retained(jobs[0], now);
    }
  }

  lemma PruneOne(jobs: seq<Job>, now: int)
    requires |jobs| <= 1 && forall k :: 0 <= k < |jobs| ==> !Terminal(jobs[k].status)
    ensures Prune(jobs, now) == jobs
  {
    KeepOne(jobs, now);
    assert LastN<Job>([], MAX_TERMINAL) + jobs == jobs;
    SortOne(jobs);
  }

  lemma EnqueuedAlone(op: Op, j: Job)
    requires op.Enqueue? && j == NewJob(op.id, op.userId, op.tenantKey, op.environmentKey, op.arguments, op.timeoutMs, op.leaseMs, 0)
    ensures Step(START, op, 0).jobs == [j]
  {
    PruneOne([], 0);
    assert [] + [j] == [j];
  }

  lemma {:induction false} LeasedAlone(jobs: seq<Job>, c: Claim)
    requires |jobs| == 1 && Claimable(jobs[0], c)
    ensures LeaseOn(jobs, c, 0).0 == [Lease(jobs[0], c, 0)]
  {
    assert FindClaimable(jobs, c) == Some(0);
  }

  lemma {:induction false} ClaimedAlone(s: System, c: Claim)
    requires |s.jobs| == 1 && Claimable(s.jobs[0], c) && c.key.None? && s.jobs[0].expiresAt > 0
    ensures Step(s, ClaimJobs(c), 0).jobs == [Lease(s.jobs[0], c, 0)]
  {
    PruneOne(s.jobs, 0);
    assert FindHeld(s.jobs, c).None?;
    assert SweepAll(s.jobs, 0) == s.jobs;
    LeasedAlone(s.jobs, c);
  }

  lemma RunOfTwo(a: Op, b: Op) returns (ops: seq<(Op, int)>)
    requires Enabled(START, a) && Enabled(Step(START, a, 0), b)
    ensures Run(START, ops, Step(Step(START, a, 0), b, 0))
  {
    ops := [(a, 0), (b, 0)];
    assert ops[1..] == [(b, 0)];
    assert Run(Step(START, a, 0), ops[1..], Step(Step(START, a, 0), b, 0));
  }

  lemma StaleLease(j: Job, c: Claim)
    requires j.leaseMs == DEFAULT_LEASE_MS && j.reconcileExpiresAt.None?
    ensures var leased := Lease(j, c, 0);
            && LeaseOver(leased, DEFAULT_LEASE_MS)
            && ReportedStatus(leased, DEFAULT_LEASE_MS) == ExpiredUnreconciled
            && Sweep(leased, DEFAULT_LEASE_MS).status == OutcomeUnknown
  {
  }

  /** They do disagree: a job enqueued and claimed at time 0 reads as never reconciled
      the moment its lease runs out. */
  lemma StaleLeaseReadsUnreconciled(c: Claim)
    requires c.key.None?
    ensures exists ops, s :: Run(START, ops, s) && |s.jobs| == 1 && LeaseOver(s.jobs[0], DEFAULT_LEASE_MS)
                             && ReportedStatus(s.jobs[0], DEFAULT_LEASE_MS) == ExpiredUnreconciled
                             && Sweep(s.jobs[0], DEFAULT_LEASE_MS).status == OutcomeUnknown
  {
    var enqueue := Enqueue("job", c.userId, c.tenantKey, "", "{}", 1000, 0);
    var j := NewJob("job", c.userId, c.tenantKey, "", "{}", 1000, 0, 0);
    EnqueuedAlone(enqueue, j);
    ClaimedAlone(Step(START, enqueue, 0), c);
    StaleLease(j, c);
    var ops := RunOfTwo(enqueue, ClaimJobs(c));
  }
}
