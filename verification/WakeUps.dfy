/** Waiting for a job: the broker, the signal table and everyone who uses them. A
    waiter reads the version of its job's signal, reads the job, and waits only if
    the job is still open; a completion stores its outcome and then notifies. Each
    of these is a step of its own, and they interleave with all other calls. */
module WakeUps {
  import opened Base
  import opened Broker
  import BrokerRuns
  import Signals

  function KeyOf(jobId: string): string {
    "job:" + jobId
  }

  /** The orders the code keeps are both `true`; the others are there to show what
      they are for. */
  datatype Order = Order(versionFirst: bool, commitFirst: bool)

  const AS_WRITTEN := Order(true, true)

  /** `readAt` and `waitAt` are history: how many calls the signal table had seen when
      the version was read and when the wait was made. */
  datatype Waiter =
    | Looping(jobId: string)
    | HasVersion(jobId: string, version: nat, readAt: nat)
    | SawOpen(jobId: string)
    | Ready(jobId: string, version: nat, readAt: nat)
    | Waiting(jobId: string, version: nat, readAt: nat, id: nat, waitAt: nat)
    | Left(jobId: string)

  /** `at` is history: the notification's place among the table's calls. */
  datatype Completer = Committed(jobId: string) | Announced(r: Report, at: nat) | Done(jobId: string, at: nat)

  /** `history` is every call the signal table has seen. */
  datatype System = System(
    broker: BrokerRuns.System, signals: Signals.State, history: seq<Signals.Op>,
    waiters: map<nat, Waiter>, completers: map<nat, Completer>)

  const START := System(BrokerRuns.START, Signals.INITIAL, [], map[], map[])

  datatype Op =
    | Store(op: BrokerRuns.Op, now: int)
    | Signal(call: Signals.Op)
    | Commit(c: nat, r: Report, now: int)
    | Notify(c: nat, r: Report)
    | Begin(w: nat, jobId: string)
    | ReadVersion(w: nat)
    | ReadJob(w: nat)
    | Wait(w: nat, id: nat)
    | Resume(w: nat)

  /** A completion that is refused throws before it notifies. */
  predicate Completes(jobs: seq<Job>, r: Report) {
    var outcome := CompleteEdit(jobs, r).1;
    outcome.Accept? || outcome.Acknowledged?
  }

  /** No open job has this id. */
  predicate Closed(jobs: seq<Job>, jobId: string) {
    var job := BrokerRuns.Lookup(jobs, jobId);
    job.Some? ==> Terminal(job.value.status)
  }

  predicate Enabled(o: Order, s: System, op: Op) {
    match op
    case Store(op, _) => !op.Complete? && BrokerRuns.Enabled(s.broker, op)
    case Signal(call) => Signals.Enabled(s.signals, call)
    case Commit(c, r, _) =>
      Completes(s.broker.jobs, r)
      && if o.commitFirst then c !in s.completers
         else c in s.completers && s.completers[c].Announced? && s.completers[c].r == r
    case Notify(c, r) =>
      if o.commitFirst then c in s.completers && s.completers[c] == Committed(r.jobId) else c !in s.completers
    case Begin(w, _) => w !in s.waiters
    case ReadVersion(w) =>
      w in s.waiters && if o.versionFirst then s.waiters[w].Looping? else s.waiters[w].SawOpen?
    case ReadJob(w) =>
      w in s.waiters && if o.versionFirst then s.waiters[w].HasVersion? else s.waiters[w].Looping?
    case Wait(w, id) =>
      w in s.waiters && s.waiters[w].Ready?
      && Signals.Enabled(s.signals, Signals.WaitOp(id, KeyOf(s.waiters[w].jobId), s.waiters[w].version))
    case Resume(w) => w in s.waiters && s.waiters[w].Waiting? && s.waiters[w].id in s.signals.answers
  }

  function Called(s: System, op: Signals.Op): System {
    s.(signals := Signals.Step(s.signals, op), history := s.history + [op])
  }

  function SetWaiter(s: System, w: nat, waiter: Waiter): System {
    s.(waiters := s.waiters[w := waiter])
  }

  function Step(o: Order, s: System, op: Op): System
    requires Enabled(o, s, op)
  {
    match op
    case Store(op, now) => s.(broker := BrokerRuns.Step(s.broker, op, now))
    case Signal(call) => Called(s, call)
    case Commit(c, r, now) =>
      s.(broker := BrokerRuns.Step(s.broker, BrokerRuns.Complete(r), now),
         completers := s.completers[c := if o.commitFirst then Committed(r.jobId) else Done(r.jobId, s.completers[c].at)])
    case Notify(c, r) =>
      Called(s, Signals.NotifyOp(KeyOf(r.jobId)))
        .(completers := s.completers[c := if o.commitFirst then Done(r.jobId, |s.history|) else Announced(r, |s.history|)])
    case Begin(w, jobId) => SetWaiter(s, w, Looping(jobId))
    case ReadVersion(w) =>
      var jobId := s.waiters[w].jobId;
      var version := Signals.Version(s.signals, KeyOf(jobId));
      SetWaiter(s, w, if o.versionFirst then HasVersion(jobId, version, |s.history|) else Ready(jobId, version, |s.history|))
    case ReadJob(w) =>
      var jobId := s.waiters[w].jobId;
      var job := BrokerRuns.Lookup(s.broker.jobs, jobId);
      SetWaiter(s, w, if job.None? || Terminal(job.value.status) then Left(jobId)
                      else if o.versionFirst then Ready(jobId, s.waiters[w].version, s.waiters[w].readAt)
                      else SawOpen(jobId))
    case Wait(w, id) =>
      var Ready(jobId, version, readAt) := s.waiters[w];
      SetWaiter(Called(s, Signals.WaitOp(id, KeyOf(jobId), version)), w, Waiting(jobId, version, readAt, id, |s.history|))
    case Resume(w) => SetWaiter(s, w, Looping(s.waiters[w].jobId))
  }

  ghost predicate Next(o: Order, s: System, t: System) {
    exists op: Op :: Enabled(o, s, op) && t == Step(o, s, op)
  }

  ghost predicate Trace(o: Order, states: seq<System>) {
    && states != [] && states[0] == START
    && forall i :: 0 < i < |states| ==> Next(o, states[i - 1], states[i])
  }

  // ----------------------------------------------------------- invariant

  /** What the signal table became of its first `n` calls. */
  function TableAfter(history: seq<Signals.Op>, n: nat): Signals.State
    requires n <= |history|
  {
    if n == 0 then Signals.INITIAL else Signals.Step(TableAfter(history, n - 1), history[n - 1])
  }

  predicate LegalAt(history: seq<Signals.Op>, n: nat)
    requires n < |history|
  {
    Signals.Enabled(TableAfter(history, n), history[n])
  }

  predicate Legal(history: seq<Signals.Op>) {
    forall n :: 0 <= n < |history| ==> LegalAt(history, n)
  }

  predicate HistoryInv(history: seq<Signals.Op>, signals: Signals.State) {
    signals == TableAfter(history, |history|) && Legal(history)
  }

  /** A notified completion is over, and its notification is where it says. */
  predicate CompleterInv(jobs: seq<Job>, known: set<string>, history: seq<Signals.Op>, c: Completer) {
    && !c.Announced?
    && c.jobId in known && Closed(jobs, c.jobId)
    && (c.Done? ==> c.at < |history| && history[c.at] == Signals.NotifyOp(KeyOf(c.jobId)))
  }

  /** A version is the one of the moment it was read. */
  predicate VersionInv(history: seq<Signals.Op>, jobId: string, version: nat, readAt: nat) {
    readAt <= |history| && version == Signals.Version(TableAfter(history, readAt), KeyOf(jobId))
  }

  predicate WaiterInv(history: seq<Signals.Op>, w: Waiter) {
    && !w.SawOpen?
    && (w.HasVersion? || w.Ready? || w.Waiting? ==> VersionInv(history, w.jobId, w.version, w.readAt))
    && (w.Waiting? ==> w.readAt <= w.waitAt < |history| && history[w.waitAt] == Signals.WaitOp(w.id, KeyOf(w.jobId), w.version))
  }

  /** Who saw the job open after reading the version is only notified of its
      completion later than that. */
  predicate NotifiedLater(w: Waiter, c: Completer) {
    (w.Ready? || w.Waiting?) && c.Done? && c.jobId == w.jobId ==> w.readAt <= c.at
  }

  ghost predicate Inv(s: System) {
    && BrokerRuns.Inv(s.broker)
    && HistoryInv(s.history, s.signals)
    && (forall c :: c in s.completers ==> CompleterInv(s.broker.jobs, s.broker.known, s.history, s.completers[c]))
    && (forall w :: w in s.waiters ==> WaiterInv(s.history, s.waiters[w]))
    && (forall w, c :: w in s.waiters && c in s.completers ==> NotifiedLater(s.waiters[w], s.completers[c]))
  }

  lemma {:induction false} TableOfPrefix(history: seq<Signals.Op>, call: Signals.Op, n: nat)
    requires n <= |history|
    ensures TableAfter(history + [call], n) == TableAfter(history, n)
  {
    if n > 0 { TableOfPrefix(history, call, n - 1); }
  }

  lemma WaiterInvStays(history: seq<Signals.Op>, call: Signals.Op, w: Waiter)
    requires WaiterInv(history, w)
    ensures WaiterInv(history + [call], w)
  {
    if w.HasVersion? || w.Ready? || w.Waiting? { TableOfPrefix(history, call, w.readAt); }
  }

  lemma TableOn(history: seq<Signals.Op>, call: Signals.Op)
    ensures TableAfter(history + [call], |history| + 1) == Signals.Step(TableAfter(history, |history|), call)
  {
    TableOfPrefix(history, call, |history|);
  }

  lemma LegalStays(history: seq<Signals.Op>, call: Signals.Op, n: nat)
    requires n < |history| && LegalAt(history, n)
    ensures LegalAt(history + [call], n)
  {
    TableOfPrefix(history, call, n);
  }

  lemma LegalLast(history: seq<Signals.Op>, call: Signals.Op)
    requires Signals.Enabled(TableAfter(history, |history|), call)
    ensures LegalAt(history + [call], |history|)
  {
    TableOfPrefix(history, call, |history|);
  }

  lemma LegalOn(history: seq<Signals.Op>, call: Signals.Op)
    requires Legal(history) && Signals.Enabled(TableAfter(history, |history|), call)
    ensures Legal(history + [call])
  {
    var longer := history + [call];
    forall n | 0 <= n < |longer| ensures LegalAt(longer, n) {
      if n < |history| { LegalStays(history, call, n); } else { LegalLast(history, call); }
    }
  }

  lemma HistoryOn(history: seq<Signals.Op>, signals: Signals.State, call: Signals.Op)
    requires HistoryInv(history, signals) && Signals.Enabled(signals, call)
    ensures HistoryInv(history + [call], Signals.Step(signals, call))
  {
    TableOn(history, call);
    LegalOn(history, call);
  }

  lemma InvCalled(s: System, call: Signals.Op)
    requires Inv(s) && Signals.Enabled(s.signals, call)
    ensures Inv(Called(s, call))
  {
    var t := Called(s, call);
    HistoryOn(s.history, s.signals, call);
    forall w | w in t.waiters ensures WaiterInv(t.history, t.waiters[w]) {
      WaiterInvStays(s.history, call, s.waiters[w]);
    }
    forall c | c in t.completers ensures CompleterInv(t.broker.jobs, t.broker.known, t.history, t.completers[c]) {
      assert CompleterInv(s.broker.jobs, s.broker.known, s.history, s.completers[c]);
    }
  }

  /** Closed is for good, for ids once handed out. */
  lemma ClosedStays(b: BrokerRuns.System, op: BrokerRuns.Op, now: int, jobId: string)
    requires BrokerRuns.Inv(b) && BrokerRuns.Enabled(b, op) && jobId in b.known && Closed(b.jobs, jobId)
    ensures Closed(BrokerRuns.Step(b, op, now).jobs, jobId) && jobId in BrokerRuns.Step(b, op, now).known
  {
    BrokerRuns.StepEvolves(b, op, now, jobId);
  }

  lemma CompletedIsClosed(b: BrokerRuns.System, r: Report, now: int)
    requires BrokerRuns.Inv(b) && Completes(b.jobs, r)
    ensures r.jobId in b.known && Closed(BrokerRuns.Step(b, BrokerRuns.Complete(r), now).jobs, r.jobId)
  {
    var k := FindOwned(b.jobs, r.jobId, r.userId).value;
    BrokerRuns.InvStep(b, BrokerRuns.Complete(r), now);
    var after := BrokerRuns.Step(b, BrokerRuns.Complete(r), now);
    assert b.jobs[k].id in b.known;
    BrokerRuns.LookupMember(after.jobs, k);
  }

  lemma InvStore(s: System, op: BrokerRuns.Op, now: int)
    requires Inv(s) && BrokerRuns.Enabled(s.broker, op)
    ensures Inv(s.(broker := BrokerRuns.Step(s.broker, op, now)))
  {
    BrokerRuns.InvStep(s.broker, op, now);
    var t := s.(broker := BrokerRuns.Step(s.broker, op, now));
    forall c | c in t.completers ensures CompleterInv(t.broker.jobs, t.broker.known, t.history, t.completers[c]) {
      ClosedStays(s.broker, op, now, s.completers[c].jobId);
    }
  }

  lemma InvCompleter(s: System, c: nat, completer: Completer)
    requires Inv(s) && CompleterInv(s.broker.jobs, s.broker.known, s.history, completer)
    requires forall w :: w in s.waiters ==> NotifiedLater(s.waiters[w], completer)
    ensures Inv(s.(completers := s.completers[c := completer]))
  {
  }

  lemma InvWaiter(s: System, w: nat, waiter: Waiter)
    requires Inv(s) && WaiterInv(s.history, waiter)
    requires forall c :: c in s.completers ==> NotifiedLater(waiter, s.completers[c])
    ensures Inv(SetWaiter(s, w, waiter))
  {
  }

  lemma InvNotify(s: System, c: nat, r: Report)
    requires Inv(s) && Enabled(AS_WRITTEN, s, Notify(c, r))
    ensures Inv(Step(AS_WRITTEN, s, Notify(c, r)))
  {
    var call := Signals.NotifyOp(KeyOf(r.jobId));
    InvCalled(s, call);
    forall w | w in s.waiters ensures NotifiedLater(s.waiters[w], Done(r.jobId, |s.history|)) {
      assert WaiterInv(s.history, s.waiters[w]);
    }
    InvCompleter(Called(s, call), c, Done(r.jobId, |s.history|));
  }

  lemma InvCommit(s: System, c: nat, r: Report, now: int)
    requires Inv(s) && Enabled(AS_WRITTEN, s, Commit(c, r, now))
    ensures Inv(Step(AS_WRITTEN, s, Commit(c, r, now)))
  {
    InvStore(s, BrokerRuns.Complete(r), now);
    CompletedIsClosed(s.broker, r, now);
    InvCompleter(s.(broker := BrokerRuns.Step(s.broker, BrokerRuns.Complete(r), now)), c, Committed(r.jobId));
  }

  /** The heart of it: while the job reads as open, no completion of it has notified. */
  lemma InvReadJob(s: System, w: nat)
    requires Inv(s) && Enabled(AS_WRITTEN, s, ReadJob(w))
    ensures Inv(Step(AS_WRITTEN, s, ReadJob(w)))
  {
    var waiter := Step(AS_WRITTEN, s, ReadJob(w)).waiters[w];
    assert WaiterInv(s.history, s.waiters[w]);
    forall c | c in s.completers ensures NotifiedLater(waiter, s.completers[c]) {
      assert CompleterInv(s.broker.jobs, s.broker.known, s.history, s.completers[c]);
    }
    InvWaiter(s, w, waiter);
  }

  lemma InvWait(s: System, w: nat, id: nat)
    requires Inv(s) && Enabled(AS_WRITTEN, s, Wait(w, id))
    ensures Inv(Step(AS_WRITTEN, s, Wait(w, id)))
  {
    var Ready(jobId, version, readAt) := s.waiters[w];
    var call := Signals.WaitOp(id, KeyOf(jobId), version);
    var waiter := Waiting(jobId, version, readAt, id, |s.history|);
    InvCalled(s, call);
    assert WaiterInv(s.history, s.waiters[w]);
    TableOfPrefix(s.history, call, readAt);
    forall c | c in s.completers ensures NotifiedLater(waiter, s.completers[c]) {
      assert NotifiedLater(s.waiters[w], s.completers[c]);
    }
    InvWaiter(Called(s, call), w, waiter);
  }

  lemma InvStep(s: System, op: Op)
    requires Inv(s) && Enabled(AS_WRITTEN, s, op)
    ensures Inv(Step(AS_WRITTEN, s, op))
  {
    match op {
      case Store(op, now) => InvStore(s, op, now);
      case Signal(call) => InvCalled(s, call);
      case Commit(c, r, now) => InvCommit(s, c, r, now);
      case Notify(c, r) => InvNotify(s, c, r);
      case Begin(w, jobId) => InvWaiter(s, w, Looping(jobId));
      case ReadVersion(w) => InvWaiter(s, w, Step(AS_WRITTEN, s, op).waiters[w]);
      case ReadJob(w) => InvReadJob(s, w);
      case Wait(w, id) => InvWait(s, w, id);
      case Resume(w) => InvWaiter(s, w, Looping(s.waiters[w].jobId));
    }
  }

  lemma {:induction false} InvTrace(states: seq<System>)
    requires Trace(AS_WRITTEN, states)
    ensures Inv(states[|states| - 1])
  {
    if |states| > 1 {
      var n := |states| - 1;
      InvTrace(states[..n]);
      var op: Op :| Enabled(AS_WRITTEN, states[n - 1], op) && states[n] == Step(AS_WRITTEN, states[n - 1], op);
      InvStep(states[n - 1], op);
    }
  }

  // ------------------------------------------------------ no lost wakeup

  lemma {:induction false} TableRuns(history: seq<Signals.Op>, signals: Signals.State, n: nat, m: nat)
    requires HistoryInv(history, signals) && n <= m <= |history|
    ensures Signals.Run(TableAfter(history, n), history[n..m], TableAfter(history, m))
    decreases m - n
  {
    if n < m {
      TableRuns(history, signals, n + 1, m);
      assert LegalAt(history, n);
      Signals.RunCons(TableAfter(history, n), history[n], history[n + 1..m], TableAfter(history, m));
      assert history[n..m] == [history[n]] + history[n + 1..m];
    }
  }

  /** The keys notified between two of the table's calls. */
  function KeysBetween(history: seq<Signals.Op>, n: nat, m: nat): set<string>
    requires n <= m <= |history|
  {
    Signals.NotifiedKeys(history[n..m])
  }

  /** A version that was never evicted: it is not the initial one, or fewer keys than
      the table holds were notified between the reading and the wait. */
  predicate Unevicted(s: System, w: Waiter)
    requires w.Waiting? && w.readAt <= w.waitAt <= |s.history|
  {
    w.version != Signals.EPOCH || |KeysBetween(s.history, w.readAt, w.waitAt) - {KeyOf(w.jobId)}| < Signals.CAPACITY
  }

  /** Main theorem, over every interleaving: whoever is still asleep waits for a job
      of which no completion has both stored its outcome and notified, unless the
      version it went to sleep with had been evicted. */
  lemma NoLostWakeup(states: seq<System>, w: nat, c: nat)
    requires Trace(AS_WRITTEN, states)
    requires var s := states[|states| - 1];
             && w in s.waiters && s.waiters[w].Waiting?
             && Signals.Asleep(s.signals, s.waiters[w].id, KeyOf(s.waiters[w].jobId))
             && c in s.completers && s.completers[c].Done? && s.completers[c].jobId == s.waiters[w].jobId
    ensures var s := states[|states| - 1];
            s.waiters[w].readAt <= s.waiters[w].waitAt <= |s.history| && !Unevicted(s, s.waiters[w])
  {
    InvTrace(states);
    var s := states[|states| - 1];
    var Waiting(jobId, version, readAt, id, waitAt) := s.waiters[w];
    assert WaiterInv(s.history, s.waiters[w]);
    if Unevicted(s, s.waiters[w]) {
      QuietSinceRead(s, s.waiters[w]);
      assert NotifiedLater(s.waiters[w], s.completers[c]);
      assert CompleterInv(s.broker.jobs, s.broker.known, s.history, s.completers[c]);
      NotifiedIsKey(s.history, s.waiters[w], s.completers[c].at);
      assert false;
    }
  }

  lemma TableInv(history: seq<Signals.Op>, signals: Signals.State, n: nat)
    requires HistoryInv(history, signals) && n <= |history|
    ensures Signals.Inv(TableAfter(history, n))
  {
    TableRuns(history, signals, 0, n);
    Signals.InvRun(Signals.INITIAL, history[0..n], TableAfter(history, n));
  }

  lemma SplitAt(history: seq<Signals.Op>, n: nat, k: nat)
    requires n <= k < |history|
    ensures history[n..|history|] == history[n..k] + [history[k]] + history[k + 1..|history|]
  {
  }

  lemma QuietSinceRead(s: System, w: Waiter)
    requires HistoryInv(s.history, s.signals) && w.Waiting? && WaiterInv(s.history, w) && Unevicted(s, w)
    requires Signals.Asleep(s.signals, w.id, KeyOf(w.jobId))
    ensures KeyOf(w.jobId) !in KeysBetween(s.history, w.readAt, w.waitAt)
    ensures KeyOf(w.jobId) !in KeysBetween(s.history, w.waitAt + 1, |s.history|)
  {
    var h, n := s.history, |s.history|;
    TableRuns(h, s.signals, w.readAt, n);
    TableInv(h, s.signals, w.readAt);
    SplitAt(h, w.readAt, w.waitAt);
    Signals.NoLostWakeup(TableAfter(h, w.readAt), h[w.readAt..w.waitAt], w.id, KeyOf(w.jobId), h[w.waitAt + 1..n], s.signals);
  }

  lemma NotifiedIsKey(history: seq<Signals.Op>, w: Waiter, at: nat)
    requires w.Waiting? && WaiterInv(history, w) && w.readAt <= at < |history|
    requires history[at] == Signals.NotifyOp(KeyOf(w.jobId))
    ensures KeyOf(w.jobId) in KeysBetween(history, w.readAt, w.waitAt) + KeysBetween(history, w.waitAt + 1, |history|)
  {
    assert at != w.waitAt;
    if at < w.waitAt {
      assert history[w.readAt..w.waitAt][at - w.readAt] == history[at];
    } else {
      assert history[w.waitAt + 1..|history|][at - w.waitAt - 1] == history[at];
    }
  }

  // ---------------------------------------------- both orders are needed

  /** Some run ends with a waiter asleep although its job is completed and notified,
      because of an eviction or not. */
  ghost predicate LosesWakeups(o: Order, evicted: bool) {
    exists states :: Trace(o, states) && SomeoneOverslept(states[|states| - 1], evicted)
  }

  ghost predicate SomeoneOverslept(s: System, evicted: bool) {
    exists w, c :: Overslept(s, w, c) && (evicted <==> s.waiters[w].version == Signals.EPOCH)
  }

  predicate Overslept(s: System, w: nat, c: nat) {
    && w in s.waiters && s.waiters[w].Waiting?
    && Signals.Asleep(s.signals, s.waiters[w].id, KeyOf(s.waiters[w].jobId))
    && c in s.completers && s.completers[c].Done? && s.completers[c].jobId == s.waiters[w].jobId
  }

  lemma Extend(o: Order, states: seq<System>, op: Op) returns (longer: seq<System>)
    requires Trace(o, states) && Enabled(o, states[|states| - 1], op)
    ensures Trace(o, longer) && longer[|longer| - 1] == Step(o, states[|states| - 1], op)
  {
    longer := states + [Step(o, states[|states| - 1], op)];
    assert Next(o, states[|states| - 1], longer[|longer| - 1]);
  }

  const CLAIM := Claim("user", "tenant", "environment", None, 0)
  const JOB := NewJob("job", "user", "tenant", "", "{}", 1000, 0, 0)
  const REPORT := Report("user", "job", Random(0), false, None, None)

  predicate JobIsOut(b: BrokerRuns.System) {
    b.jobs == [Lease(JOB, CLAIM, 0)]
  }

  lemma LeasedRun(o: Order) returns (states: seq<System>)
    ensures Trace(o, states) && JobIsOut(states[|states| - 1].broker)
    ensures states[|states| - 1] == START.(broker := states[|states| - 1].broker)
  {
    var enqueue := BrokerRuns.Enqueue("job", "user", "tenant", "", "{}", 1000, 0);
    BrokerRuns.EnqueuedAlone(enqueue, JOB);
    states := Extend(o, [START], Store(enqueue, 0));
    BrokerRuns.ClaimedAlone(states[|states| - 1].broker, CLAIM);
    states := Extend(o, states, Store(BrokerRuns.ClaimJobs(CLAIM), 0));
  }

  lemma ReadsAsOpen(b: BrokerRuns.System)
    requires JobIsOut(b)
    ensures var job := BrokerRuns.Lookup(b.jobs, "job"); job.Some? && !Terminal(job.value.status)
    ensures Completes(b.jobs, REPORT)
  {
    assert FindId(b.jobs, "job") == Some(0) && FindOwned(b.jobs, "job", "user") == Some(0);
  }

  lemma NotifiedTable(key: string)
    ensures var s := Signals.Step(Signals.INITIAL, Signals.NotifyOp(key));
            var wait := Signals.WaitOp(0, key, 1);
            Signals.Version(s, key) == 1 && Signals.Enabled(s, wait) && Signals.Asleep(Signals.Step(s, wait), 0, key)
  {
    var s := Signals.Step(Signals.INITIAL, Signals.NotifyOp(key));
    assert s == Signals.Renewed(Signals.INITIAL, key);
    assert s.versions == [Signals.Entry(key, 1)];
    assert Signals.Version(s, key) == 1 && Signals.Listening(s, key) == [];
    assert Signals.Listening(Signals.Step(s, Signals.WaitOp(0, key, 1)), key) == [] + [0] == [0];
  }

  /** A waiter that reads the job before the version sleeps through its completion. */
  lemma JobFirstLosesWakeups()
    ensures LosesWakeups(Order(false, true), false)
  {
    var o := Order(false, true);
    var states := LeasedRun(o);
    ReadsAsOpen(states[|states| - 1].broker);
    NotifiedTable(KeyOf("job"));
    states := Extend(o, states, Begin(0, "job"));
    states := Extend(o, states, ReadJob(0));
    states := Extend(o, states, Commit(1, REPORT, 0));
    states := Extend(o, states, Notify(1, REPORT));
    states := Extend(o, states, ReadVersion(0));
    states := Extend(o, states, Wait(0, 0));
    assert Overslept(states[|states| - 1], 0, 1);
  }

  /** So does one whose job is notified before its outcome is stored. */
  lemma NotifyFirstLosesWakeups()
    ensures LosesWakeups(Order(true, false), false)
  {
    var o := Order(true, false);
    var states := LeasedRun(o);
    ReadsAsOpen(states[|states| - 1].broker);
    NotifiedTable(KeyOf("job"));
    states := Extend(o, states, Notify(1, REPORT));
    states := Extend(o, states, Begin(0, "job"));
    states := Extend(o, states, ReadVersion(0));
    states := Extend(o, states, ReadJob(0));
    states := Extend(o, states, Wait(0, 0));
    states := Extend(o, states, Commit(1, REPORT, 0));
    assert Overslept(states[|states| - 1], 0, 1);
  }

  /** The system after `n` notifications of other keys. */
  function Noised(s: System, n: nat): System {
    s.(signals := Signals.AfterOthers(s.signals, n), history := s.history + Signals.Others(n))
  }

  lemma NoisedOn(s: System, n: nat)
    ensures Noised(s, n + 1) == Called(Noised(s, n), Signals.NotifyOp(Signals.Name(n + 1)))
    ensures Noised(s, 0) == s
  {
    assert s.history + [] == s.history;
  }

  lemma NoiseStep(states: seq<System>, s: System, n: nat) returns (longer: seq<System>)
    requires Trace(AS_WRITTEN, states) && states[|states| - 1] == Noised(s, n)
    ensures Trace(AS_WRITTEN, longer) && longer[|longer| - 1] == Noised(s, n + 1)
  {
    NoisedOn(s, n);
    var op := Signal(Signals.NotifyOp(Signals.Name(n + 1)));
    assert Enabled(AS_WRITTEN, Noised(s, n), op);
    assert Step(AS_WRITTEN, Noised(s, n), op) == Noised(s, n + 1);
    longer := Extend(AS_WRITTEN, states, op);
  }

  lemma {:induction false} Noise(states: seq<System>, s: System, n: nat) returns (longer: seq<System>)
    requires Trace(AS_WRITTEN, states) && states[|states| - 1] == s
    ensures Trace(AS_WRITTEN, longer) && longer[|longer| - 1] == Noised(s, n)
  {
    NoisedOn(s, 0);
    longer := states;
    for i := 0 to n
      invariant Trace(AS_WRITTEN, longer) && longer[|longer| - 1] == Noised(s, i)
    {
      longer := NoiseStep(longer, s, i);
    }
  }

  /** The job read as open with the initial version, then completed and notified. */
  lemma MissedSoFar() returns (states: seq<System>, b: BrokerRuns.System)
    ensures Trace(AS_WRITTEN, states)
    ensures states[|states| - 1]
            == System(b, Signals.Step(Signals.INITIAL, Signals.NotifyOp(KeyOf("job"))), [Signals.NotifyOp(KeyOf("job"))],
                      map[0 := Ready("job", Signals.EPOCH, 0)], map[1 := Done("job", 0)])
  {
    states := LeasedRun(AS_WRITTEN);
    ReadsAsOpen(states[|states| - 1].broker);
    states := Extend(AS_WRITTEN, states, Begin(0, "job"));
    states := Extend(AS_WRITTEN, states, ReadVersion(0));
    states := Extend(AS_WRITTEN, states, ReadJob(0));
    states := Extend(AS_WRITTEN, states, Commit(1, REPORT, 0));
    b := states[|states| - 1].broker;
    states := Extend(AS_WRITTEN, states, Notify(1, REPORT));
    assert [] + [Signals.NotifyOp(KeyOf("job"))] == [Signals.NotifyOp(KeyOf("job"))];
  }

  lemma AsleepOnInitial(s: Signals.State, key: string)
    requires Signals.Version(s, key) == Signals.EPOCH && s.listeners == map[] && s.answers == map[]
    ensures var wait := Signals.WaitOp(0, key, Signals.EPOCH);
            Signals.Enabled(s, wait) && Signals.Asleep(Signals.Step(s, wait), 0, key)
  {
  }

  /** With the orders kept, only an eviction can do it; and it can. */
  lemma EvictionLosesWakeups()
    ensures LosesWakeups(AS_WRITTEN, true)
  {
    var n: nat :| n == Signals.CAPACITY;
    var states, b := MissedSoFar();
    var missed := states[|states| - 1];
    Signals.EvictedVersionLooksCurrent(KeyOf("job"), n);
    states := Noise(states, missed, n);
    AsleepOnInitial(states[|states| - 1].signals, KeyOf("job"));
    assert states[|states| - 1].waiters == missed.waiters && states[|states| - 1].completers == missed.completers;
    states := Extend(AS_WRITTEN, states, Wait(0, 0));
    assert Overslept(states[|states| - 1], 0, 1);
  }
}
