/** The verification state of a workspace, by what was announced, written and run. */
module VerificationStories {
  import opened Base
  import V = Verification

  datatype Event =
    | Announced(commands: seq<V.Command>, enforced: bool)
    | Wrote(paths: set<string>, at: int)
    | Ran(run: V.Run)

  function Step(s: V.State, e: Event): V.State {
    match e
    case Announced(commands, enforced) => V.SetCommands(s, commands, enforced)
    case Wrote(paths, at) => V.MarkDirty(s, paths, at)
    case Ran(run) => V.RecordAndSettle(s, run)
  }

  function After(events: seq<Event>): V.State {
    if events == [] then V.INITIAL else Step(After(events[..|events| - 1]), events[|events| - 1])
  }

  // ------------------------------------------------- read off the events

  /** The commands announced last, and whether their success was to be enforced. */
  function Announcement(events: seq<Event>): (seq<V.Command>, bool) {
    if events == [] then ([], false)
    else
      var e := events[|events| - 1];
      if e.Announced? then (e.commands, e.enforced) else Announcement(events[..|events| - 1])
  }

  predicate Demands(events: seq<Event>, c: V.Command) {
    c in Announcement(events).0 && c.required
  }

  /** Enforcement without a required command demands nothing. */
  predicate Enforced(events: seq<Event>) {
    Announcement(events).1 && exists c :: c in Announcement(events).0 && c.required
  }

  function LatestRun(events: seq<Event>, id: string): Option<V.Run> {
    if events == [] then None
    else
      var e := events[|events| - 1];
      if e.Ran? && e.run.commandId == id then Some(e.run) else LatestRun(events[..|events| - 1], id)
  }

  predicate PassedAfter(events: seq<Event>, id: string, at: int) {
    var run := LatestRun(events, id);
    run.Some? && run.value.ok && run.value.startedAt > at
  }

  predicate AllPassed(events: seq<Event>, at: int) {
    forall c :: c in Announcement(events).0 && c.required ==> PassedAfter(events, c.id, at)
  }

  /** The write that still waits for its proof: the last one, until a run completes it,
      which any run does when nothing is enforced. */
  function Unsettled(events: seq<Event>): Option<int> {
    if events == [] then None
    else
      var before := Unsettled(events[..|events| - 1]);
      match events[|events| - 1]
      case Announced(_, _) => before
      case Wrote(_, at) => Some(at)
      case Ran(_) => if before.Some? && Enforced(events) && !AllPassed(events, before.value) then before else None
  }

  /** Everything written since the last settled write. */
  function UnsettledPaths(events: seq<Event>): set<string> {
    if events == [] then {}
    else
      var before := UnsettledPaths(events[..|events| - 1]);
      match events[|events| - 1]
      case Announced(_, _) => before
      case Wrote(paths, _) => before + paths
      case Ran(_) => if Unsettled(events).Some? then before else {}
  }

  function Runs(events: seq<Event>): seq<V.Run> {
    if events == [] then []
    else Runs(events[..|events| - 1]) + if events[|events| - 1].Ran? then [events[|events| - 1].run] else []
  }

  // -------------------------------------------------------------- the proof

  lemma SettledMeans(s: V.State, events: seq<Event>)
    requires s.commands == Announcement(events).0 && s.enforced == Enforced(events)
    requires forall id :: (id in s.lastRunByCommand <==> LatestRun(events, id).Some?)
                          && (id in s.lastRunByCommand ==> s.lastRunByCommand[id] == LatestRun(events, id).value)
    ensures V.Satisfied(s) <==> !(s.lastWriteAt.Some? && Enforced(events) && !AllPassed(events, s.lastWriteAt.value))
  {
    V.SatisfiedExactly(s);
    if s.lastWriteAt.Some? {
      var at := s.lastWriteAt.value;
      if AllPassed(events, at) {
        forall i | 0 <= i < |s.commands| ensures V.PassedSince(s, s.commands[i], at) { }
      } else {
        var c :| c in s.commands && c.required && !PassedAfter(events, c.id, at);
        var i :| 0 <= i < |s.commands| && s.commands[i] == c;
        assert !V.PassedSince(s, s.commands[i], at);
      }
    }
  }

  ghost predicate RunsTold(s: V.State, events: seq<Event>) {
    forall id :: (id in s.lastRunByCommand <==> LatestRun(events, id).Some?)
                 && (id in s.lastRunByCommand ==> s.lastRunByCommand[id] == LatestRun(events, id).value)
  }

  /** In every run: commands, runs, history and what still waits for proof are as told. */
  lemma {:induction false} StateAsTold(events: seq<Event>)
    ensures var s := After(events);
            && s.commands == Announcement(events).0 && s.enforced == Enforced(events)
            && RunsTold(s, events)
            && s.lastWriteAt == Unsettled(events) && s.dirtyPaths == UnsettledPaths(events)
  {
    if events != [] {
      var before, e := events[..|events| - 1], events[|events| - 1];
      StateAsTold(before);
      match e {
        case Announced(commands, enforced) =>
          assert V.AnyRequired(commands) <==> exists c :: c in commands && c.required;
        case Wrote(_, _) =>
        case Ran(run) =>
          var after := V.RecordRun(After(before), run);
          assert RunsTold(after, events);
          SettledMeans(after, events);
      }
    }
  }

  predicate NewestFirst(history: seq<V.Run>, all: seq<V.Run>) {
    |history| == Min(50, |all|) && forall i :: 0 <= i < |history| ==> history[i] == all[|all| - 1 - i]
  }

  lemma RecordedNewest(s: V.State, all: seq<V.Run>, run: V.Run)
    requires NewestFirst(s.history, all)
    ensures NewestFirst(V.RecordRun(s, run).history, all + [run])
  {
    var h, more := V.RecordRun(s, run).history, all + [run];
    forall i | 0 <= i < |h| ensures h[i] == more[|more| - 1 - i] {
      if i > 0 { assert h[i] == s.history[i - 1]; }
    }
  }

  /** The fifty latest runs are kept, newest first. */
  lemma {:induction false} HistoryAsTold(events: seq<Event>)
    ensures NewestFirst(After(events).history, Runs(events))
  {
    if events != [] {
      var before, e := events[..|events| - 1], events[|events| - 1];
      HistoryAsTold(before);
      if e.Ran? {
        RecordedNewest(After(before), Runs(before), e.run);
        assert After(events).history == V.RecordRun(After(before), e.run).history;
      } else {
        assert Runs(before) + [] == Runs(before);
        assert After(events).history == After(before).history;
      }
    }
  }

  lemma {:induction false} ListedExactly(s: V.State, commands: seq<V.Command>, written: int, standing: V.Standing, c: V.Command)
    ensures c in V.RequiredWith(s, commands, written, standing)
       <==> c in commands && c.required && V.StandingOf(s.lastRunByCommand, c.id, written) == standing
  {
    if commands != [] {
      var n := |commands| - 1;
      ListedExactly(s, commands[..n], written, standing, c);
      assert commands == commands[..n] + [commands[n]];
    }
  }

  /** What an evaluation lists, while an enforced write waits for its proof: as pending
      the demanded commands that never ran, as stale those whose latest run did not
      start after the write, as failed those whose latest run did and failed. */
  lemma ListsAsTold(events: seq<Event>, c: V.Command)
    requires Enforced(events) && Unsettled(events).Some?
    ensures var e, run := V.Evaluate(After(events)), LatestRun(events, c.id);
            && (c in e.pending <==> Demands(events, c) && run.None?)
            && (c in e.stale <==> Demands(events, c) && run.Some? && run.value.startedAt <= Unsettled(events).value)
            && (c in e.failed <==> Demands(events, c) && run.Some? && run.value.startedAt > Unsettled(events).value && !run.value.ok)
  {
    var s := After(events);
    StateAsTold(events);
    var at := s.lastWriteAt.value;
    ListedExactly(s, s.commands, at, V.NeverRan, c);
    ListedExactly(s, s.commands, at, V.BeforeWrite, c);
    ListedExactly(s, s.commands, at, V.FailedAfter, c);
  }

  /** And otherwise it lists nothing. */
  lemma NothingListed(events: seq<Event>)
    ensures V.Evaluate(After(events)) == V.Evaluation([], [], [])
       <==> !Enforced(events) || Unsettled(events).None? || AllPassed(events, Unsettled(events).value)
  {
    StateAsTold(events);
    SettledMeans(After(events), events);
    var e := V.Evaluate(After(events));
    assert V.Satisfied(After(events)) <==> e == V.Evaluation([], [], []);
  }

  // -------------------------------------------------- what the gate waits for

  /** The run was started and neither collected nor forgotten since. */
  predicate Tracked(ops: seq<V.Op>, run: nat) {
    ops != [] &&
    match ops[|ops| - 1]
    case Launched(r, _, _, _) => r == run || Tracked(ops[..|ops| - 1], run)
    case Collected(r) => r != run && Tracked(ops[..|ops| - 1], run)
    case Forgotten(r) => r != run && Tracked(ops[..|ops| - 1], run)
    case _ => Tracked(ops[..|ops| - 1], run)
  }

  predicate Ended(ops: seq<V.Op>, run: nat) {
    exists i :: 0 <= i < |ops| && ops[i].Settled? && ops[i].run == run
  }

  predicate RunTold(s: V.System, told: seq<V.Op>, run: nat) {
    && (run in s.active <==> Tracked(told, run)) && (run in s.active ==> run in s.launches)
    && (run in s.launches && s.launches[run].outcome.Some? <==> Ended(told, run))
  }

  lemma EndedMore(told: seq<V.Op>, op: V.Op, run: nat)
    ensures Ended(told + [op], run) <==> Ended(told, run) || (op.Settled? && op.run == run)
  {
    if Ended(told, run) {
      var i :| 0 <= i < |told| && told[i].Settled? && told[i].run == run;
      assert (told + [op])[i] == told[i];
    }
    assert (told + [op])[|told|] == op;
  }

  /** What a step does to the runs. */
  lemma StepOnRuns(s: V.System, op: V.Op, run: nat)
    requires V.Enabled(s, op)
    ensures var t := V.Step(s, op);
            && (run in t.active <==> (op.Launched? && op.run == run)
                                     || (run in s.active && !((op.Collected? || op.Forgotten?) && op.run == run)))
            && (run in t.launches <==> run in s.launches || (op.Launched? && op.run == run))
            && (run in t.launches && t.launches[run].outcome.Some? <==>
                  (run in s.launches && s.launches[run].outcome.Some?) || (op.Settled? && op.run == run))
  {
  }

  lemma RunToldStep(told: seq<V.Op>, s: V.System, op: V.Op, run: nat)
    requires RunTold(s, told, run) && V.Enabled(s, op)
    ensures RunTold(V.Step(s, op), told + [op], run)
  {
    StepOnRuns(s, op, run);
    EndedMore(told, op, run);
    assert (told + [op])[..|told|] == told;
  }

  lemma {:induction false} RunToldRun(told: seq<V.Op>, s: V.System, ops: seq<V.Op>, t: V.System, run: nat)
    requires RunTold(s, told, run) && V.RunFrom(s, ops, t)
    ensures RunTold(t, told + ops, run)
    decreases |ops|
  {
    if ops == [] {
      assert told + ops == told;
    } else {
      RunToldStep(told, s, ops[0], run);
      RunToldRun(told + [ops[0]], V.Step(s, ops[0]), ops[1..], t, run);
      assert told + [ops[0]] + ops[1..] == told + ops;
    }
  }

  /** Over every run the gate is open exactly if every run still tracked has ended and
      the evaluation is satisfied. */
  lemma GateWaitsExactly(ops: seq<V.Op>, t: V.System)
    requires V.RunFrom(V.START, ops, t)
    ensures V.GateOpens(t) <==> V.Satisfied(t.v) && forall run: nat :: Tracked(ops, run) ==> Ended(ops, run)
  {
    forall run: nat ensures RunTold(t, ops, run) {
      RunToldRun([], V.START, ops, t, run);
      assert [] + ops == ops;
    }
    if V.GateOpens(t) {
      forall run: nat | Tracked(ops, run) ensures Ended(ops, run) { assert RunTold(t, ops, run); }
    }
    if forall run: nat :: Tracked(ops, run) ==> Ended(ops, run) {
      forall run | run in t.active && run in t.launches ensures t.launches[run].outcome.Some? { assert RunTold(t, ops, run); }
    }
  }
}
