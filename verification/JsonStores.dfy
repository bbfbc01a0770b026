/** One JSON document on disk: updates queue on a promise chain, readers and
    updates share one lazy load, and a new value is published only after the file
    was replaced. Every await is a step boundary, so any number of reads and
    updates interleave. */
module JsonStores {
  import opened Base

  /** What a mutator makes of the document; a value that cannot be written as
      JSON counts as thrown. */
  datatype Outcome<V, R> = Commit(next: V, result: R) | Throw

  datatype Settlement<R> = Done(result: R) | Threw | LoadFailed | WriteFailed

  datatype Phase<V, R> =
    | Waiting
    | Loading
    | Mutating(current: V)
    | Writing(next: V, result: R)
    | Renamed(next: V, result: R)
    | Settled(s: Settlement<R>)

  type Mutator<!V, !R> = V -> Outcome<V, R>

  /** The k-th update asked for runs the mutator `ms(k)`; `pred` is the update whose
      settling it was chained on. */
  datatype Task<V, R> = Task(pred: Option<nat>, phase: Phase<V, R>)

  datatype Load<V> = NotLoading | Opening | HasRead(content: Option<V>)

  /** `since` and `at` are history: how many updates had settled when the read was
      asked for and when it was answered. */
  datatype Reader<V> = Asking(since: nat) | Answered(since: nat, at: nat, value: V) | ReadFailed

  datatype State<V, R> = State(
    disk: Option<V>, published: Option<V>, load: Load<V>, tail: Option<nat>,
    tasks: seq<Task<V, R>>, readers: seq<Reader<V>>)

  datatype Op =
    | Submit
    | ForgetTail
    | Start(k: nat)
    | OpenFile
    | ReadFile
    | FinishLoad
    | AbortLoad
    | LoadThrows(k: nat)
    | Obtain(k: nat)
    | Mutate(k: nat)
    | Rename(k: nat)
    | FailWrite(k: nat)
    | Publish(k: nat)
    | Ask
    | Answer(r: nat)
    | FailRead(r: nat)

  predicate IsSettled<V, R>(t: Task<V, R>) {
    t.phase.Settled?
  }

  predicate SettledTo<V, R>(tasks: seq<Task<V, R>>, n: int) {
    forall i :: 0 <= i < n && i < |tasks| ==> IsSettled(tasks[i])
  }

  /** How many updates, from the first, have settled without a gap. */
  function Front<V, R>(tasks: seq<Task<V, R>>): (n: nat)
    ensures n <= |tasks| && SettledTo(tasks, n)
    ensures n < |tasks| ==> !IsSettled(tasks[n])
  {
    if tasks == [] then 0
    else
      var n := Front(tasks[..|tasks| - 1]);
      if n < |tasks| - 1 || !IsSettled(tasks[|tasks| - 1]) then n else |tasks|
  }

  predicate Ready<V, R>(s: State<V, R>, k: nat) {
    && k < |s.tasks| && s.tasks[k].phase.Waiting?
    && (s.tasks[k].pred.Some? && s.tasks[k].pred.value < |s.tasks| ==> IsSettled(s.tasks[s.tasks[k].pred.value]))
  }

  ghost predicate Enabled<V, R>(s: State<V, R>, op: Op) {
    match op
    case Submit => true
    case ForgetTail => s.tail.Some? && s.tail.value < |s.tasks| && IsSettled(s.tasks[s.tail.value])
    case Start(k) => Ready(s, k)
    case OpenFile => s.published.None? && s.load.NotLoading?
    case ReadFile => s.load.Opening?
    case FinishLoad => s.load.HasRead?
    case AbortLoad => s.load.Opening?
    case LoadThrows(k) => k < |s.tasks| && s.tasks[k].phase.Loading? && s.published.None?
    case Obtain(k) => k < |s.tasks| && s.tasks[k].phase.Loading? && s.published.Some?
    case Mutate(k) => k < |s.tasks| && s.tasks[k].phase.Mutating?
    case Rename(k) => k < |s.tasks| && s.tasks[k].phase.Writing?
    case FailWrite(k) => k < |s.tasks| && s.tasks[k].phase.Writing?
    case Publish(k) => k < |s.tasks| && s.tasks[k].phase.Renamed?
    case Ask => true
    case Answer(r) => r < |s.readers| && s.readers[r].Asking? && s.published.Some?
    case FailRead(r) => r < |s.readers| && s.readers[r].Asking? && s.published.None?
  }

  function Moved<V, R>(s: State<V, R>, k: nat, phase: Phase<V, R>): State<V, R>
    requires k < |s.tasks|
  {
    s.(tasks := s.tasks[k := s.tasks[k].(phase := phase)])
  }

  function Mutated<V, R>(m: Mutator<V, R>, current: V): Phase<V, R> {
    match m(current)
    case Commit(next, result) => Writing(next, result)
    case Throw => Settled(Threw)
  }

  ghost function Apply<V, R>(ms: nat -> Mutator<V, R>, s: State<V, R>, op: Op, default_: V): State<V, R>
    requires Enabled(s, op)
  {
    match op
    case Submit => s.(tasks := s.tasks + [Task(s.tail, Waiting)], tail := Some(|s.tasks|))
    case ForgetTail => s.(tail := None)
    case Start(k) => Moved(s, k, Loading)
    case OpenFile => s.(load := Opening)
    case ReadFile => s.(load := HasRead(s.disk))
    case FinishLoad => s.(load := NotLoading, published := Some(OrElse(s.load.content, default_)))
    case AbortLoad => s.(load := NotLoading)
    case LoadThrows(k) => Moved(s, k, Settled(LoadFailed))
    case Obtain(k) => Moved(s, k, Mutating(s.published.value))
    case Mutate(k) => Moved(s, k, Mutated(ms(k), s.tasks[k].phase.current))
    case Rename(k) => Moved(s, k, Renamed(s.tasks[k].phase.next, s.tasks[k].phase.result)).(disk := Some(s.tasks[k].phase.next))
    case FailWrite(k) => Moved(s, k, Settled(WriteFailed))
    case Publish(k) => Moved(s, k, Settled(Done(s.tasks[k].phase.result))).(published := Some(s.tasks[k].phase.next))
    case Ask => s.(readers := s.readers + [Asking(Front(s.tasks))])
    case Answer(r) => s.(readers := s.readers[r := Answered(s.readers[r].since, Front(s.tasks), s.published.value)])
    case FailRead(r) => s.(readers := s.readers[r := ReadFailed])
  }

  function Initial<V, R>(disk: Option<V>): State<V, R> {
    State(disk, None, NotLoading, None, [], [])
  }

  ghost predicate Next<V, R>(ms: nat -> Mutator<V, R>, s: State<V, R>, t: State<V, R>, default_: V) {
    exists op: Op :: Enabled(s, op) && t == Apply(ms, s, op, default_)
  }

  ghost predicate Trace<V, R>(ms: nat -> Mutator<V, R>, states: seq<State<V, R>>, disk: Option<V>, default_: V) {
    && states != [] && states[0] == Initial(disk)
    && forall i :: 0 < i < |states| ==> Next(ms, states[i - 1], states[i], default_)
  }

  // ------------------------------------------------- the atomic register

  /** The register after the updates that took effect, in request order. */
  ghost function After<V, R>(ms: nat -> Mutator<V, R>, v: V, tasks: seq<Task<V, R>>): V {
    if tasks == [] then v
    else
      var n := |tasks| - 1;
      var before := After(ms, v, tasks[..n]);
      if TookEffect(tasks[n]) && ms(n)(before).Commit? then ms(n)(before).next else before
  }

  predicate TookEffect<V, R>(t: Task<V, R>) {
    t.phase.Settled? && t.phase.s.Done?
  }

  lemma {:induction false} AfterIdle<V, R>(ms: nat -> Mutator<V, R>, v: V, tasks: seq<Task<V, R>>, k: nat)
    requires k <= |tasks| && forall i :: k <= i < |tasks| ==> !TookEffect(tasks[i])
    ensures After(ms, v, tasks) == After(ms, v, tasks[..k])
  {
    var n := |tasks| - 1;
    if k == |tasks| {
      assert tasks[..k] == tasks;
    } else {
      AfterIdle(ms, v, tasks[..n], k);
      assert tasks[..n][..k] == tasks[..k];
    }
  }

  // ----------------------------------------------------------- invariant

  predicate Waits<V, R>(t: Task<V, R>) {
    t.phase.Waiting?
  }

  /** One update at a time, in request order. */
  predicate InOrder<V, R>(tasks: seq<Task<V, R>>) {
    forall i, k :: 0 <= i < k < |tasks| && !IsSettled(tasks[i]) ==> Waits(tasks[k])
  }

  predicate Chained<V, R>(tasks: seq<Task<V, R>>, k: nat)
    requires k < |tasks|
  {
    match tasks[k].pred
    case Some(p) => p + 1 == k
    case None => SettledTo(tasks, k)
  }

  predicate QueueInv<V, R>(s: State<V, R>) {
    && InOrder(s.tasks)
    && (forall k :: 0 <= k < |s.tasks| ==> Chained(s.tasks, k))
    && (s.tail.Some? ==> s.tail.value + 1 == |s.tasks|)
    && (s.tail.None? ==> SettledTo(s.tasks, |s.tasks|))
  }

  /** What the phase of an update says about the register it found. */
  ghost predicate PhaseInv<V, R>(m: Mutator<V, R>, phase: Phase<V, R>, v: V) {
    match phase
    case Waiting => true
    case Loading => true
    case Mutating(current) => current == v
    case Writing(_, _) => Mutated(m, v) == phase
    case Renamed(next, result) => Mutated(m, v) == Writing(next, result)
    case Settled(Done(result)) => m(v).Commit? && m(v).result == result
    case Settled(Threw) => m(v).Throw?
    case Settled(LoadFailed) => true
    case Settled(WriteFailed) => m(v).Commit?
  }

  ghost predicate TaskInv<V, R>(ms: nat -> Mutator<V, R>, v0: V, tasks: seq<Task<V, R>>, k: nat)
    requires k < |tasks|
  {
    PhaseInv(ms(k), tasks[k].phase, After(ms, v0, tasks[..k]))
  }

  ghost predicate TasksInv<V, R>(ms: nat -> Mutator<V, R>, v0: V, tasks: seq<Task<V, R>>) {
    forall k :: 0 <= k < |tasks| ==> TaskInv(ms, v0, tasks, k)
  }

  predicate Unloaded<V, R>(t: Task<V, R>) {
    t.phase.Waiting? || t.phase.Loading? || (t.phase.Settled? && t.phase.s.LoadFailed?)
  }

  /** The file holds the published value, or the one value renamed into place and
      not yet published. */
  ghost predicate ValueInv<V, R>(ms: nat -> Mutator<V, R>, disk0: Option<V>, default_: V, s: State<V, R>) {
    var v := After(ms, OrElse(disk0, default_), s.tasks);
    && (s.published.Some? ==> s.published.value == v && s.load.NotLoading?)
    && (s.published.None? ==> (forall k :: 0 <= k < |s.tasks| ==> Unloaded(s.tasks[k]))
                              && s.disk == disk0 && (s.load.HasRead? ==> s.load.content == disk0))
    && (forall k :: 0 <= k < |s.tasks| && s.tasks[k].phase.Renamed? ==> s.disk == Some(s.tasks[k].phase.next))
    && ((forall k :: 0 <= k < |s.tasks| ==> !s.tasks[k].phase.Renamed?) ==> OrElse(s.disk, default_) == v)
  }

  ghost predicate ReaderInv<V, R>(ms: nat -> Mutator<V, R>, v0: V, tasks: seq<Task<V, R>>, r: Reader<V>) {
    match r
    case Asking(since) => since <= Front(tasks)
    case Answered(since, at, value) => since <= at <= Front(tasks) && value == After(ms, v0, tasks[..at])
    case ReadFailed => true
  }

  ghost predicate ReadersInv<V, R>(ms: nat -> Mutator<V, R>, v0: V, s: State<V, R>) {
    forall r :: 0 <= r < |s.readers| ==> ReaderInv(ms, v0, s.tasks, s.readers[r])
  }

  ghost predicate Inv<V, R>(ms: nat -> Mutator<V, R>, disk0: Option<V>, default_: V, s: State<V, R>) {
    && QueueInv(s) && TasksInv(ms, OrElse(disk0, default_), s.tasks)
    && ValueInv(ms, disk0, default_, s) && ReadersInv(ms, OrElse(disk0, default_), s)
  }

  // ------------------------------------------------ moving one update on

  /** The update at `k` is the one at work: nothing before it is unsettled. */
  lemma AtWork<V, R>(s: State<V, R>, k: nat)
    requires QueueInv(s) && k < |s.tasks| && !IsSettled(s.tasks[k])
    requires !s.tasks[k].phase.Waiting? || Ready(s, k)
    ensures SettledTo(s.tasks, k) && Front(s.tasks) == k
    ensures forall i :: k < i < |s.tasks| ==> Waits(s.tasks[i])
  {
    assert Chained(s.tasks, k);
  }

  /** Replacing the update at work leaves the register of everything before it. */
  lemma AfterMove<V, R>(ms: nat -> Mutator<V, R>, v0: V, tasks: seq<Task<V, R>>, k: nat, phase: Phase<V, R>)
    requires k < |tasks| && !IsSettled(tasks[k]) && forall i :: k < i < |tasks| ==> Waits(tasks[i])
    ensures var moved := tasks[k := tasks[k].(phase := phase)];
            && moved[..k] == tasks[..k]
            && After(ms, v0, tasks) == After(ms, v0, tasks[..k])
            && After(ms, v0, moved) == After(ms, v0, moved[..k + 1])
            && (!TookEffect(moved[k]) ==> After(ms, v0, moved) == After(ms, v0, tasks))
  {
    var moved := tasks[k := tasks[k].(phase := phase)];
    assert moved[..k] == tasks[..k];
    AfterIdle(ms, v0, tasks, k);
    AfterIdle(ms, v0, moved, k + 1);
    assert moved[..k + 1][..k] == tasks[..k];
  }

  lemma QueueMove<V, R>(s: State<V, R>, k: nat, phase: Phase<V, R>)
    requires QueueInv(s) && k < |s.tasks| && !IsSettled(s.tasks[k]) && (!s.tasks[k].phase.Waiting? || Ready(s, k))
    requires !phase.Waiting?
    ensures QueueInv(Moved(s, k, phase))
    ensures k <= Front(Moved(s, k, phase).tasks)
  {
    AtWork(s, k);
    var t := Moved(s, k, phase);
    forall i | 0 <= i < |t.tasks| ensures Chained(t.tasks, i) {
      assert Chained(s.tasks, i);
    }
  }

  lemma TasksMove<V, R>(ms: nat -> Mutator<V, R>, v0: V, s: State<V, R>, k: nat, phase: Phase<V, R>)
    requires QueueInv(s) && TasksInv(ms, v0, s.tasks)
    requires k < |s.tasks| && !IsSettled(s.tasks[k]) && (!s.tasks[k].phase.Waiting? || Ready(s, k))
    requires PhaseInv(ms(k), phase, After(ms, v0, s.tasks[..k]))
    ensures TasksInv(ms, v0, Moved(s, k, phase).tasks)
  {
    AtWork(s, k);
    var t := Moved(s, k, phase);
    forall i | 0 <= i < |t.tasks| ensures TaskInv(ms, v0, t.tasks, i) {
      if i <= k { assert t.tasks[..i] == s.tasks[..i]; assert TaskInv(ms, v0, s.tasks, i); }
      else { assert Waits(s.tasks[i]); }
    }
  }

  lemma ReadersMove<V, R>(ms: nat -> Mutator<V, R>, v0: V, s: State<V, R>, k: nat, phase: Phase<V, R>)
    requires QueueInv(s) && ReadersInv(ms, v0, s)
    requires k < |s.tasks| && !IsSettled(s.tasks[k]) && (!s.tasks[k].phase.Waiting? || Ready(s, k)) && !phase.Waiting?
    ensures ReadersInv(ms, v0, Moved(s, k, phase))
  {
    AtWork(s, k);
    QueueMove(s, k, phase);
    var t := Moved(s, k, phase);
    forall r | 0 <= r < |t.readers| ensures ReaderInv(ms, v0, t.tasks, t.readers[r]) {
      assert ReaderInv(ms, v0, s.tasks, s.readers[r]);
      if s.readers[r].Answered? { assert t.tasks[..s.readers[r].at] == s.tasks[..s.readers[r].at]; }
    }
  }

  // ---------------------------------------------------- every step keeps it

  predicate NoneRenamed<V, R>(tasks: seq<Task<V, R>>) {
    forall k :: 0 <= k < |tasks| ==> !tasks[k].phase.Renamed?
  }

  /** Is `op` a step of the update `k`? */
  predicate Works(op: Op, k: nat) {
    match op
    case Start(i) => i == k
    case LoadThrows(i) => i == k
    case Obtain(i) => i == k
    case Mutate(i) => i == k
    case Rename(i) => i == k
    case FailWrite(i) => i == k
    case Publish(i) => i == k
    case _ => false
  }

  ghost function NewPhase<V, R>(ms: nat -> Mutator<V, R>, s: State<V, R>, op: Op, k: nat): Phase<V, R>
    requires Enabled(s, op) && Works(op, k)
  {
    match op
    case Start(_) => Loading
    case LoadThrows(_) => Settled(LoadFailed)
    case Obtain(_) => Mutating(s.published.value)
    case Mutate(_) => Mutated(ms(k), s.tasks[k].phase.current)
    case Rename(_) => Renamed(s.tasks[k].phase.next, s.tasks[k].phase.result)
    case FailWrite(_) => Settled(WriteFailed)
    case Publish(_) => Settled(Done(s.tasks[k].phase.result))
  }

  lemma NewPhaseInv<V, R>(ms: nat -> Mutator<V, R>, disk0: Option<V>, default_: V, s: State<V, R>, op: Op, k: nat)
    requires Inv(ms, disk0, default_, s) && Enabled(s, op) && Works(op, k)
    ensures PhaseInv(ms(k), NewPhase(ms, s, op, k), After(ms, OrElse(disk0, default_), s.tasks[..k]))
    ensures Apply(ms, s, op, default_).tasks == Moved(s, k, NewPhase(ms, s, op, k)).tasks
  {
    var v0 := OrElse(disk0, default_);
    assert TaskInv(ms, v0, s.tasks, k);
    AtWork(s, k);
    AfterMove(ms, v0, s.tasks, k, NewPhase(ms, s, op, k));
  }

  lemma PublishValue<V, R>(ms: nat -> Mutator<V, R>, disk0: Option<V>, default_: V, s: State<V, R>, k: nat)
    requires Inv(ms, disk0, default_, s) && Enabled(s, Publish(k))
    ensures ValueInv(ms, disk0, default_, Apply(ms, s, Publish(k), default_))
  {
    var v0 := OrElse(disk0, default_);
    var t := Apply(ms, s, Publish(k), default_);
    AtWork(s, k);
    AfterMove(ms, v0, s.tasks, k, t.tasks[k].phase);
    assert TaskInv(ms, v0, s.tasks, k);
    assert t.tasks[..k + 1][..k] == s.tasks[..k];
    assert After(ms, v0, t.tasks[..k + 1]) == s.tasks[k].phase.next;
    assert NoneRenamed(t.tasks);
  }

  lemma ValueMove<V, R>(ms: nat -> Mutator<V, R>, disk0: Option<V>, default_: V, s: State<V, R>, op: Op, k: nat)
    requires Inv(ms, disk0, default_, s) && Enabled(s, op) && Works(op, k)
    ensures ValueInv(ms, disk0, default_, Apply(ms, s, op, default_))
  {
    if op.Publish? {
      PublishValue(ms, disk0, default_, s, k);
    } else {
      var v0 := OrElse(disk0, default_);
      var t := Apply(ms, s, op, default_);
      NewPhaseInv(ms, disk0, default_, s, op, k);
      AtWork(s, k);
      AfterMove(ms, v0, s.tasks, k, NewPhase(ms, s, op, k));
      assert TaskInv(ms, v0, s.tasks, k);
      if op.Rename? { assert t.tasks[k].phase.Renamed?; } else { assert NoneRenamed(s.tasks); }
    }
  }

  lemma InvWork<V, R>(ms: nat -> Mutator<V, R>, disk0: Option<V>, default_: V, s: State<V, R>, op: Op, k: nat)
    requires Inv(ms, disk0, default_, s) && Enabled(s, op) && Works(op, k)
    ensures Inv(ms, disk0, default_, Apply(ms, s, op, default_))
  {
    var v0 := OrElse(disk0, default_);
    var phase := NewPhase(ms, s, op, k);
    NewPhaseInv(ms, disk0, default_, s, op, k);
    QueueMove(s, k, phase);
    TasksMove(ms, v0, s, k, phase);
    ReadersMove(ms, v0, s, k, phase);
    ValueMove(ms, disk0, default_, s, op, k);
  }

  lemma {:induction false} FrontGrows<V, R>(tasks: seq<Task<V, R>>, t: Task<V, R>)
    requires t.phase.Waiting?
    ensures Front(tasks + [t]) == Front(tasks)
  {
    assert (tasks + [t])[..|tasks|] == tasks;
  }

  lemma SubmitQueue<V, R>(s: State<V, R>)
    requires QueueInv(s)
    ensures QueueInv(s.(tasks := s.tasks + [Task(s.tail, Waiting)], tail := Some(|s.tasks|)))
  {
    var tasks := s.tasks + [Task(s.tail, Waiting)];
    forall k | 0 <= k < |tasks| ensures Chained(tasks, k) {
      if k < |s.tasks| { assert Chained(s.tasks, k); }
    }
  }

  lemma SubmitTasks<V, R>(ms: nat -> Mutator<V, R>, v0: V, tasks: seq<Task<V, R>>, t: Task<V, R>)
    requires TasksInv(ms, v0, tasks) && t.phase.Waiting?
    ensures TasksInv(ms, v0, tasks + [t]) && After(ms, v0, tasks + [t]) == After(ms, v0, tasks)
  {
    var all := tasks + [t];
    forall k | 0 <= k < |all| ensures TaskInv(ms, v0, all, k) {
      assert all[..k] == tasks[..k];
      if k < |tasks| { assert TaskInv(ms, v0, tasks, k); }
    }
    assert all[..|tasks|] == tasks;
  }

  lemma SubmitReaders<V, R>(ms: nat -> Mutator<V, R>, v0: V, s: State<V, R>, t: Task<V, R>)
    requires ReadersInv(ms, v0, s) && t.phase.Waiting?
    ensures forall r :: 0 <= r < |s.readers| ==> ReaderInv(ms, v0, s.tasks + [t], s.readers[r])
  {
    FrontGrows(s.tasks, t);
    forall r | 0 <= r < |s.readers| ensures ReaderInv(ms, v0, s.tasks + [t], s.readers[r]) {
      assert ReaderInv(ms, v0, s.tasks, s.readers[r]);
      if s.readers[r].Answered? { assert (s.tasks + [t])[..s.readers[r].at] == s.tasks[..s.readers[r].at]; }
    }
  }

  lemma SubmitValue<V, R>(ms: nat -> Mutator<V, R>, disk0: Option<V>, default_: V, s: State<V, R>)
    requires ValueInv(ms, disk0, default_, s) && TasksInv(ms, OrElse(disk0, default_), s.tasks)
    ensures ValueInv(ms, disk0, default_, s.(tasks := s.tasks + [Task(s.tail, Waiting)], tail := Some(|s.tasks|)))
  {
    var tasks := s.tasks + [Task(s.tail, Waiting)];
    SubmitTasks(ms, OrElse(disk0, default_), s.tasks, Task(s.tail, Waiting));
    assert forall k :: 0 <= k < |s.tasks| ==> tasks[k] == s.tasks[k];
  }

  lemma InvSubmit<V, R>(ms: nat -> Mutator<V, R>, disk0: Option<V>, default_: V, s: State<V, R>)
    requires Inv(ms, disk0, default_, s)
    ensures Inv(ms, disk0, default_, Apply(ms, s, Submit, default_))
  {
    var v0 := OrElse(disk0, default_);
    SubmitQueue(s);
    SubmitTasks(ms, v0, s.tasks, Task(s.tail, Waiting));
    SubmitReaders(ms, v0, s, Task(s.tail, Waiting));
    SubmitValue(ms, disk0, default_, s);
  }

  lemma InvAnswer<V, R>(ms: nat -> Mutator<V, R>, disk0: Option<V>, default_: V, s: State<V, R>, r: nat)
    requires Inv(ms, disk0, default_, s) && Enabled(s, Answer(r))
    ensures Inv(ms, disk0, default_, Apply(ms, s, Answer(r), default_))
  {
    var v0 := OrElse(disk0, default_);
    var n := Front(s.tasks);
    assert ReaderInv(ms, v0, s.tasks, s.readers[r]);
    forall i | n <= i < |s.tasks| ensures !TookEffect(s.tasks[i]) {
      if i > n { assert !IsSettled(s.tasks[n]); assert Waits(s.tasks[i]); }
    }
    AfterIdle(ms, v0, s.tasks, n);
  }

  lemma NothingHappened<V, R>(ms: nat -> Mutator<V, R>, v0: V, tasks: seq<Task<V, R>>)
    requires forall k :: 0 <= k < |tasks| ==> Unloaded(tasks[k])
    ensures After(ms, v0, tasks) == v0
  {
    forall k | 0 <= k < |tasks| ensures !TookEffect(tasks[k]) { assert Unloaded(tasks[k]); }
    AfterIdle(ms, v0, tasks, 0);
  }

  lemma InvApply<V, R>(ms: nat -> Mutator<V, R>, disk0: Option<V>, default_: V, s: State<V, R>, op: Op)
    requires Inv(ms, disk0, default_, s) && Enabled(s, op)
    ensures Inv(ms, disk0, default_, Apply(ms, s, op, default_))
  {
    match op {
      case Submit => InvSubmit(ms, disk0, default_, s);
      case ForgetTail =>
        assert forall i :: 0 <= i < |s.tasks| ==> IsSettled(s.tasks[i]) || Waits(s.tasks[|s.tasks| - 1]) || i == |s.tasks| - 1;
      case OpenFile =>
      case ReadFile =>
      case FinishLoad => NothingHappened(ms, OrElse(disk0, default_), s.tasks);
      case AbortLoad =>
      case Ask =>
      case Answer(r) => InvAnswer(ms, disk0, default_, s, r);
      case FailRead(r) =>
      case _ =>
        InvWork(ms, disk0, default_, s, op, op.k);
    }
  }

  lemma {:induction false} InvTrace<V, R>(ms: nat -> Mutator<V, R>, states: seq<State<V, R>>, disk0: Option<V>, default_: V)
    requires Trace(ms, states, disk0, default_)
    ensures Inv(ms, disk0, default_, states[|states| - 1])
  {
    if |states| > 1 {
      var n := |states| - 1;
      InvTrace(ms, states[..n], disk0, default_);
      var op :| Enabled(states[n - 1], op) && states[n] == Apply(ms, states[n - 1], op, default_);
      InvApply(ms, disk0, default_, states[n - 1], op);
    }
  }

  // ------------------------------------------------------- main results

  /** Which of the two file operations of an update go through. */
  datatype Faults = Faults(loads: bool, writes: bool)

  /** An update run alone on the value `v`. */
  function Alone<V, R>(m: Mutator<V, R>, v: V, f: Faults): (Settlement<R>, V) {
    if !f.loads then (LoadFailed, v)
    else
      match m(v)
      case Throw => (Threw, v)
      case Commit(next, result) => if f.writes then (Done(result), next) else (WriteFailed, v)
  }

  /** Updates take effect one at a time and in the order they were asked for: while
      one is unsettled, no later one has begun. */
  lemma UpdatesRunInRequestOrder<V, R>(ms: nat -> Mutator<V, R>, states: seq<State<V, R>>, disk0: Option<V>, default_: V, i: nat, k: nat)
    requires Trace(ms, states, disk0, default_)
    requires var s := states[|states| - 1]; i < k < |s.tasks| && !s.tasks[k].phase.Waiting?
    ensures IsSettled(states[|states| - 1].tasks[i])
  {
    InvTrace(ms, states, disk0, default_);
  }

  /** Whatever interleaves, a settled update answers, and leaves the register, as
      it would have run alone on what the updates before it left. */
  lemma SettledAsIfAlone<V, R>(ms: nat -> Mutator<V, R>, states: seq<State<V, R>>, disk0: Option<V>, default_: V, k: nat)
    requires Trace(ms, states, disk0, default_)
    requires k < |states[|states| - 1].tasks| && IsSettled(states[|states| - 1].tasks[k])
    ensures var tasks := states[|states| - 1].tasks;
            var v0 := OrElse(disk0, default_);
            exists f :: && Alone(ms(k), After(ms, v0, tasks[..k]), f).0 == tasks[k].phase.s
                        && Alone(ms(k), After(ms, v0, tasks[..k]), f).1 == After(ms, v0, tasks[..k + 1])
  {
    InvTrace(ms, states, disk0, default_);
    var tasks := states[|states| - 1].tasks;
    var v0 := OrElse(disk0, default_);
    assert TaskInv(ms, v0, tasks, k);
    assert tasks[..k + 1][..k] == tasks[..k];
    var f := Faults(!tasks[k].phase.s.LoadFailed?, !tasks[k].phase.s.WriteFailed?);
    assert Alone(ms(k), After(ms, v0, tasks[..k]), f).0 == tasks[k].phase.s;
  }

  /** A read answers with the register after all updates settled by some moment
      between the question and the answer: never a value still being worked on. */
  lemma ReadsAreAtomic<V, R>(ms: nat -> Mutator<V, R>, states: seq<State<V, R>>, disk0: Option<V>, default_: V, r: nat)
    requires Trace(ms, states, disk0, default_)
    requires r < |states[|states| - 1].readers| && states[|states| - 1].readers[r].Answered?
    ensures var s := states[|states| - 1];
            var Answered(since, at, value) := s.readers[r];
            && since <= at <= |s.tasks| && SettledTo(s.tasks, at)
            && value == After(ms, OrElse(disk0, default_), s.tasks[..at])
  {
    InvTrace(ms, states, disk0, default_);
    var s := states[|states| - 1];
    assert ReaderInv(ms, OrElse(disk0, default_), s.tasks, s.readers[r]);
  }

  /** Once loaded, the file holds the published value, or the value of the one
      committed update in flight; a restart reads one of the two. */
  lemma DiskIsPublishedOrInFlight<V, R>(ms: nat -> Mutator<V, R>, states: seq<State<V, R>>, disk0: Option<V>, default_: V)
    requires Trace(ms, states, disk0, default_) && states[|states| - 1].published.Some?
    ensures var s := states[|states| - 1];
            || OrElse(s.disk, default_) == s.published.value
            || exists k :: && 0 <= k < |s.tasks| && s.tasks[k].phase.Renamed?
                           && ms(k)(s.published.value) == Commit(OrElse(s.disk, default_), s.tasks[k].phase.result)
  {
    InvTrace(ms, states, disk0, default_);
    var s := states[|states| - 1];
    var v0 := OrElse(disk0, default_);
    if k :| 0 <= k < |s.tasks| && s.tasks[k].phase.Renamed? {
      AtWork(s, k);
      AfterIdle(ms, v0, s.tasks, k);
      assert TaskInv(ms, v0, s.tasks, k);
    }
  }

  ghost predicate Extends<V, R>(s: State<V, R>, t: State<V, R>) {
    && |s.tasks| <= |t.tasks|
    && forall k :: 0 <= k < |s.tasks| && IsSettled(s.tasks[k]) ==> t.tasks[k] == s.tasks[k]
  }

  lemma ApplyExtends<V, R>(ms: nat -> Mutator<V, R>, s: State<V, R>, op: Op, default_: V)
    requires Enabled(s, op)
    requires forall k :: 0 <= k < |s.tasks| && Works(op, k) ==> !IsSettled(s.tasks[k])
    ensures Extends(s, Apply(ms, s, op, default_))
  {
  }

  lemma NextExtends<V, R>(ms: nat -> Mutator<V, R>, s: State<V, R>, t: State<V, R>, default_: V)
    requires Next(ms, s, t, default_)
    ensures Extends(s, t)
  {
    var op :| Enabled(s, op) && t == Apply(ms, s, op, default_);
    ApplyExtends(ms, s, op, default_);
  }

  lemma ExtendsOn<V, R>(s: State<V, R>, t: State<V, R>, u: State<V, R>)
    requires Extends(s, t) && Extends(t, u)
    ensures Extends(s, u)
  {
  }

  lemma TracePrefix<V, R>(ms: nat -> Mutator<V, R>, states: seq<State<V, R>>, disk0: Option<V>, default_: V)
    requires Trace(ms, states, disk0, default_) && |states| > 1
    ensures Trace(ms, states[..|states| - 1], disk0, default_)
    ensures Next(ms, states[|states| - 2], states[|states| - 1], default_)
  {
  }

  /** A settled update is never reopened, so a committed one is never lost. */
  lemma {:induction false} SettledForGood<V, R>(ms: nat -> Mutator<V, R>, states: seq<State<V, R>>, disk0: Option<V>, default_: V, i: nat)
    requires Trace(ms, states, disk0, default_) && i < |states|
    ensures Extends(states[i], states[|states| - 1])
  {
    var n := |states| - 1;
    if i < n {
      TracePrefix(ms, states, disk0, default_);
      SettledForGood(ms, states[..n], disk0, default_, i);
      NextExtends(ms, states[n - 1], states[n], default_);
      ExtendsOn(states[i], states[n - 1], states[n]);
    }
  }

  /** What is still to do until an update has settled, or a reader is answered. */
  function WorkLeft<V, R>(t: Task<V, R>): nat {
    match t.phase
    case Waiting => 5
    case Loading => 4
    case Mutating(_) => 3
    case Writing(_, _) => 2
    case Renamed(_, _) => 1
    case Settled(_) => 0
  }

  function LoadLeft<V, R>(s: State<V, R>): nat {
    if s.published.Some? then 0 else match s.load case NotLoading => 3 case Opening => 2 case HasRead(_) => 1
  }

  /** The steps in which nothing fails. */
  predicate Forward(op: Op, k: nat) {
    op in {Start(k), OpenFile, ReadFile, FinishLoad, Obtain(k), Mutate(k), Rename(k), Publish(k)}
  }

  lemma NextOfUpdate<V, R>(s: State<V, R>, k: nat) returns (op: Op)
    requires k < |s.tasks| && !IsSettled(s.tasks[k]) && (s.tasks[k].phase.Waiting? ==> Ready(s, k))
    ensures Enabled(s, op) && Forward(op, k)
  {
    match s.tasks[k].phase {
      case Waiting => op := Start(k);
      case Loading =>
        op := if s.published.Some? then Obtain(k) else if s.load.NotLoading? then OpenFile else if s.load.Opening? then ReadFile else FinishLoad;
      case Mutating(_) => op := Mutate(k);
      case Writing(_, _) => op := Rename(k);
      case Renamed(_, _) => op := Publish(k);
    }
  }

  lemma StepsForward<V, R>(ms: nat -> Mutator<V, R>, s: State<V, R>, op: Op, default_: V, k: nat)
    requires Enabled(s, op) && Forward(op, k) && k < |s.tasks| && !IsSettled(s.tasks[k]) && (s.published.Some? ==> s.load.NotLoading?)
    ensures var t := Apply(ms, s, op, default_);
            k < |t.tasks| && WorkLeft(t.tasks[k]) + LoadLeft(t) < WorkLeft(s.tasks[k]) + LoadLeft(s)
  {
  }

  /** While an update is unsettled, the first such has a next step that takes it, or the
      load it waits for, nearer to its end: unless something fails, eight will do. */
  lemma UpdateMovesOn<V, R>(ms: nat -> Mutator<V, R>, states: seq<State<V, R>>, disk0: Option<V>, default_: V) returns (op: Op)
    requires Trace(ms, states, disk0, default_)
    requires Front(states[|states| - 1].tasks) < |states[|states| - 1].tasks|
    ensures var s := states[|states| - 1];
            var k := Front(s.tasks);
            && Enabled(s, op) && WorkLeft(s.tasks[k]) + LoadLeft(s) <= 8
            && var t := Apply(ms, s, op, default_);
            k < |t.tasks| && WorkLeft(t.tasks[k]) + LoadLeft(t) < WorkLeft(s.tasks[k]) + LoadLeft(s)
  {
    InvTrace(ms, states, disk0, default_);
    var s := states[|states| - 1];
    var k := Front(s.tasks);
    assert Chained(s.tasks, k);
    op := NextOfUpdate(s, k);
    StepsForward(ms, s, op, default_, k);
  }

  /** So is a reader that waits: the load comes nearer, and then the read is answered with
      the document as published. */
  lemma ReaderMovesOn<V, R>(ms: nat -> Mutator<V, R>, s: State<V, R>, default_: V, r: nat) returns (op: Op)
    requires r < |s.readers| && s.readers[r].Asking?
    ensures Enabled(s, op)
    ensures var t := Apply(ms, s, op, default_);
            r < |t.readers|
            && if s.published.Some? then t.readers[r].Answered? && t.readers[r].value == s.published.value
               else t.readers[r] == s.readers[r] && LoadLeft(t) < LoadLeft(s)
  {
    op := if s.published.Some? then Answer(r) else if s.load.NotLoading? then OpenFile else if s.load.Opening? then ReadFile else FinishLoad;
  }

  // ------------------------------------------------------ the store itself

  /** The store's fields and its two calls, each run to its end; the theorems above
      reduce every interleaving to such runs in request order. */
  class JsonFile<V, R> {
    var disk: Option<V>
    var value: Option<V>
    const defaultValue: V

    ghost predicate Valid()
      reads this
    {
      value.Some? ==> value.value == OrElse(disk, defaultValue)
    }

    function Contents(): V
      reads this
    {
      OrElse(disk, defaultValue)
    }

    constructor (disk: Option<V>, defaultValue: V)
      ensures Valid() && Contents() == OrElse(disk, defaultValue) && value.None? && this.defaultValue == defaultValue
    {
      this.disk, this.value, this.defaultValue := disk, None, defaultValue;
    }

    method Read(loads: bool) returns (r: Option<V>)
      requires Valid()
      modifies this`value
      ensures Valid() && disk == old(disk)
      ensures r.Some? <==> old(value).Some? || loads
      ensures r.Some? ==> r.value == Contents() && value == r
      ensures r.None? ==> value == old(value)
    {
      if value.None? {
        if !loads { return None; }
        value := Some(OrElse(disk, defaultValue));
      }
      return value;
    }

    method Update(m: Mutator<V, R>, f: Faults) returns (s: Settlement<R>)
      requires Valid()
      modifies this
      ensures Valid()
      ensures s == Alone(m, old(Contents()), f.(loads := f.loads || old(value).Some?)).0
      ensures Contents() == Alone(m, old(Contents()), f.(loads := f.loads || old(value).Some?)).1
      ensures s.Done? ==> value == Some(Contents())
      ensures !s.Done? ==> disk == old(disk)
    {
      var current := Read(f.loads);
      if current.None? { return LoadFailed; }
      var outcome := m(current.value);
      if outcome.Throw? { return Threw; }
      if !f.writes { return WriteFailed; }
      disk := Some(outcome.next);
      value := Some(outcome.next);
      return Done(outcome.result);
    }
  }
}
