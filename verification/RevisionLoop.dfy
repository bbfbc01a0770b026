/** The optimistic revision loop behind `mutateOAuthGrant` and
    `mutatePendingSignup`: read the document and its revision, run the mutator on
    a private copy, write back only if the revision is still the one read, retry
    up to eight times. Each database call is one step, and any number of callers
    interleave. */
module RevisionLoop {
  import opened Base

  const MAX_ATTEMPTS := 8

  /** What a mutator asks for. `Throw` leaves the loop at once. */
  datatype Outcome<V, R> = Put(value: V, result: R) | Keep(result: R) | Remove(result: R) | Throw(result: R)

  type Mutator<!V, !R> = Option<V> -> Outcome<V, R>

  datatype Doc<V> = Absent | Present(value: V, rev: nat)

  /** One turn of a caller's loop. The mutator is run anew in every turn, with a new
      clock reading and new random values, so each turn has its own. */
  datatype Attempt = Attempt(caller: nat, number: nat)

  /** Where one caller is. `since` counts the commits made before its call began;
      `at` the commits made before the state its result was computed from. */
  datatype Call<V, R> =
    | Ready(attempt: nat, since: nat)
    | Holding(attempt: nat, since: nat, read: V, rev: nat)
    | Returned(attempt: nat, result: R, since: nat, at: nat)
    | GaveUp(since: nat)

  /** The document, the attempts whose writes were committed, in order, and
      where every caller is. */
  datatype State<V, R> = State(doc: Doc<V>, log: seq<Attempt>, calls: map<nat, Call<V, R>>)

  /** The attempt a caller is in, or answered from. */
  function Turn<V, R>(s: State<V, R>, id: nat): Attempt
    requires id in s.calls && !s.calls[id].GaveUp?
  {
    Attempt(id, s.calls[id].attempt)
  }

  function Value<V>(d: Doc<V>): Option<V> {
    if d.Present? then Some(d.value) else None
  }

  function Begin<V, R>(s: State<V, R>, id: nat): State<V, R> {
    s.(calls := s.calls[id := Ready(0, |s.log|)])
  }

  /** `findOne`, then the mutator on the copy. */
  function Read<V, R>(m: Mutator<V, R>, s: State<V, R>, id: nat): State<V, R>
    requires id in s.calls && s.calls[id].Ready?
  {
    var call := s.calls[id];
    var outcome := m(Value(s.doc));
    if s.doc.Absent? || outcome.Throw?
    then s.(calls := s.calls[id := Returned(call.attempt, outcome.result, call.since, |s.log|)])
    else s.(calls := s.calls[id := Holding(call.attempt, call.since, s.doc.value, s.doc.rev)])
  }

  /** `replaceOne`, `deleteOne` or the `stillCurrent` check, all filtered by the
      revision that was read. */
  function Write<V, R>(m: Mutator<V, R>, s: State<V, R>, id: nat): State<V, R>
    requires id in s.calls && s.calls[id].Holding?
  {
    var call := s.calls[id];
    var outcome := m(Some(call.read));
    if s.doc.Absent? || s.doc.rev != call.rev
    then s.(calls := s.calls[id := if call.attempt + 1 < MAX_ATTEMPTS then Ready(call.attempt + 1, call.since) else GaveUp(call.since)])
    else
      var done := s.calls[id := Returned(call.attempt, outcome.result, call.since, |s.log|)];
      match outcome
      case Put(next, _) => State(Present(next, call.rev + 1), s.log + [Attempt(id, call.attempt)], done)
      case Remove(_) => State(Absent, s.log + [Attempt(id, call.attempt)], done)
      case Keep(_) => s.(calls := done)
      case Throw(_) => s.(calls := done)
  }

  ghost predicate Next<V(!new), R(!new)>(ms: Attempt -> Mutator<V, R>, s: State<V, R>, t: State<V, R>) {
    exists id: nat ::
      || (id !in s.calls && t == Begin(s, id))
      || (id in s.calls && s.calls[id].Ready? && t == Read(ms(Turn(s, id)), s, id))
      || (id in s.calls && s.calls[id].Holding? && t == Write(ms(Turn(s, id)), s, id))
  }

  ghost predicate Trace<V(!new), R(!new)>(ms: Attempt -> Mutator<V, R>, init: Doc<V>, states: seq<State<V, R>>) {
    && states != [] && states[0] == State(init, [], map[])
    && forall i :: 0 < i < |states| ==> Next(ms, states[i - 1], states[i])
  }

  // ------------------------------------------------ the sequential meaning

  /** What one committed mutator makes of the document. */
  function Apply<V, R>(m: Mutator<V, R>, doc: Option<V>): Option<V> {
    match m(doc)
    case Put(next, _) => if doc.Some? then Some(next) else None
    case Remove(_) => None
    case _ => doc
  }

  /** The document after the committed mutators, one after another. */
  function Fold<V, R>(ms: Attempt -> Mutator<V, R>, init: Option<V>, log: seq<Attempt>): Option<V> {
    if log == [] then init else Apply(ms(log[|log| - 1]), Fold(ms, init, log[..|log| - 1]))
  }

  predicate Committed(log: seq<Attempt>, id: nat) {
    exists i :: 0 <= i < |log| && log[i].caller == id
  }

  /** The result a caller got is the one its mutator computes from the document
      as it stood after the first `at` commits, at an instant during the call. If
      the caller is in the log, its own commit is the next one; if not, its
      mutator asked for no write there. */
  ghost predicate Explained<V, R>(ms: Attempt -> Mutator<V, R>, init: Option<V>, log: seq<Attempt>, id: nat, call: Call<V, R>)
    requires call.Returned?
  {
    && call.since <= call.at <= |log|
    && var turn := Attempt(id, call.attempt);
    && var outcome := ms(turn)(Fold(ms, init, log[..call.at]));
    && call.result == outcome.result
    && (Committed(log, id) <==> call.at < |log| && log[call.at] == turn)
    && (!Committed(log, id) ==> Fold(ms, init, log[..call.at]).None? || outcome.Keep? || outcome.Throw?)
  }

  /** Linearizability: the stored document is the fold of the committed mutators
      in commit order, nobody commits twice, every result is explained, and a call
      that has not returned or gave up has left no trace. */
  ghost predicate Linearizable<V, R>(ms: Attempt -> Mutator<V, R>, init: Doc<V>, s: State<V, R>) {
    && Value(s.doc) == Fold(ms, Value(init), s.log)
    && (forall i, j :: 0 <= i < j < |s.log| ==> s.log[i].caller != s.log[j].caller)
    && (forall i :: 0 <= i < |s.log| ==> s.log[i].caller in s.calls && s.calls[s.log[i].caller].Returned?)
    && (forall id :: id in s.calls && s.calls[id].Returned? ==> Explained(ms, Value(init), s.log, id, s.calls[id]))
  }

  // -------------------------------------------------------------- the proof

  ghost predicate Inv<V, R>(ms: Attempt -> Mutator<V, R>, init: Doc<V>, s: State<V, R>) {
    && Linearizable(ms, init, s)
    && (s.doc.Present? ==> init.Present? && s.doc.rev == init.rev + |s.log|)
    && (forall id :: id in s.calls && s.calls[id].Ready? ==> s.calls[id].since <= |s.log|)
    && (forall id :: id in s.calls && s.calls[id].Holding? ==> HeldCopy(ms, init, s.log, s.calls[id]))
    && (forall id :: id in s.calls && s.calls[id].Holding? ==> !ms(Turn(s, id))(Some(s.calls[id].read)).Throw?)
  }

  /** A copy read at revision `rev` is the document after that many commits. */
  ghost predicate HeldCopy<V, R>(ms: Attempt -> Mutator<V, R>, init: Doc<V>, log: seq<Attempt>, call: Call<V, R>)
    requires call.Holding?
  {
    && init.Present? && call.since <= call.rev - init.rev <= |log|
    && Fold(ms, Value(init), log[..call.rev - init.rev]) == Some(call.read)
  }

  lemma ExplainedStays<V, R>(ms: Attempt -> Mutator<V, R>, init: Option<V>, log: seq<Attempt>, more: Attempt, id: nat, call: Call<V, R>)
    requires call.Returned? && Explained(ms, init, log, id, call) && more.caller != id
    ensures Explained(ms, init, log + [more], id, call)
  {
    assert (log + [more])[..call.at] == log[..call.at];
    if i :| 0 <= i < |log| && log[i].caller == id { assert (log + [more])[i].caller == id; }
  }

  ghost predicate Commits<V, R>(ms: Attempt -> Mutator<V, R>, s: State<V, R>, id: nat) {
    && id in s.calls && s.calls[id].Holding? && s.doc.Present? && s.doc.rev == s.calls[id].rev
    && var o := ms(Turn(s, id))(Some(s.calls[id].read)); o.Put? || o.Remove?
  }

  /** What a caller that commits now is told. */
  ghost function Answer<V, R>(ms: Attempt -> Mutator<V, R>, s: State<V, R>, id: nat): Call<V, R>
    requires id in s.calls && s.calls[id].Holding?
  {
    var call := s.calls[id];
    Returned(call.attempt, ms(Turn(s, id))(Some(call.read)).result, call.since, |s.log|)
  }

  lemma HoldingNotLogged<V, R>(ms: Attempt -> Mutator<V, R>, init: Doc<V>, s: State<V, R>, id: nat)
    requires Inv(ms, init, s) && id in s.calls && !s.calls[id].Returned?
    ensures !Committed(s.log, id)
  {
    assert forall i :: 0 <= i < |s.log| ==> s.calls[s.log[i].caller].Returned?;
  }

  lemma FoldOne<V, R>(ms: Attempt -> Mutator<V, R>, init: Option<V>, log: seq<Attempt>, turn: Attempt)
    ensures Fold(ms, init, log + [turn]) == Apply(ms(turn), Fold(ms, init, log))
  {
    assert (log + [turn])[..|log|] == log;
  }

  lemma CommitReadsCurrent<V, R>(ms: Attempt -> Mutator<V, R>, init: Doc<V>, s: State<V, R>, id: nat)
    requires Inv(ms, init, s) && Commits(ms, s, id)
    ensures Fold(ms, Value(init), s.log) == Some(s.calls[id].read) && s.calls[id].since <= |s.log|
  {
    assert HeldCopy(ms, init, s.log, s.calls[id]);
    assert s.log[..|s.log|] == s.log;
  }

  lemma CommitWrites<V, R>(ms: Attempt -> Mutator<V, R>, s: State<V, R>, id: nat)
    requires Commits(ms, s, id)
    ensures var t := Write(ms(Turn(s, id)), s, id);
            && t.log == s.log + [Turn(s, id)] && Value(t.doc) == Apply(ms(Turn(s, id)), Some(s.calls[id].read))
            && t.calls == s.calls[id := Answer(ms, s, id)]
  {
  }

  lemma CommitShape<V, R>(ms: Attempt -> Mutator<V, R>, init: Doc<V>, s: State<V, R>, id: nat)
    requires Inv(ms, init, s) && Commits(ms, s, id)
    ensures !Committed(s.log, id) && Fold(ms, Value(init), s.log) == Some(s.calls[id].read)
    ensures var t := Write(ms(Turn(s, id)), s, id);
            && t.log == s.log + [Turn(s, id)] && Value(t.doc) == Fold(ms, Value(init), t.log)
            && t.calls == s.calls[id := Answer(ms, s, id)]
  {
    HoldingNotLogged(ms, init, s, id);
    CommitReadsCurrent(ms, init, s, id);
    CommitWrites(ms, s, id);
    FoldOne(ms, Value(init), s.log, Turn(s, id));
  }

  lemma CommitExplained<V, R>(ms: Attempt -> Mutator<V, R>, init: Doc<V>, s: State<V, R>, id: nat)
    requires Inv(ms, init, s) && Commits(ms, s, id)
    ensures Explained(ms, Value(init), s.log + [Turn(s, id)], id, Answer(ms, s, id))
  {
    HoldingNotLogged(ms, init, s, id);
    CommitReadsCurrent(ms, init, s, id);
    assert (s.log + [Turn(s, id)])[..|s.log|] == s.log && (s.log + [Turn(s, id)])[|s.log|] == Turn(s, id);
  }

  lemma HeldStays<V, R>(ms: Attempt -> Mutator<V, R>, init: Doc<V>, log: seq<Attempt>, more: Attempt, call: Call<V, R>)
    requires call.Holding? && HeldCopy(ms, init, log, call)
    ensures HeldCopy(ms, init, log + [more], call)
  {
    var n := call.rev - init.rev;
    assert (log + [more])[..n] == log[..n];
  }

  lemma CommitLinear<V, R>(ms: Attempt -> Mutator<V, R>, init: Doc<V>, s: State<V, R>, id: nat)
    requires Inv(ms, init, s) && Commits(ms, s, id)
    ensures Linearizable(ms, init, Write(ms(Turn(s, id)), s, id))
  {
    var t := Write(ms(Turn(s, id)), s, id);
    CommitShape(ms, init, s, id);
    CommitExplained(ms, init, s, id);
    forall x | x in t.calls && t.calls[x].Returned? ensures Explained(ms, Value(init), t.log, x, t.calls[x]) {
      if x != id { ExplainedStays(ms, Value(init), s.log, Turn(s, id), x, s.calls[x]); }
    }
  }

  lemma InvCommit<V, R>(ms: Attempt -> Mutator<V, R>, init: Doc<V>, s: State<V, R>, id: nat)
    requires Inv(ms, init, s) && Commits(ms, s, id)
    ensures Inv(ms, init, Write(ms(Turn(s, id)), s, id))
  {
    var t := Write(ms(Turn(s, id)), s, id);
    CommitShape(ms, init, s, id);
    CommitLinear(ms, init, s, id);
    forall x | x in t.calls && t.calls[x].Holding? ensures HeldCopy(ms, init, t.log, t.calls[x]) {
      HeldStays(ms, init, s.log, Turn(s, id), s.calls[x]);
    }
  }

  lemma LinearMoved<V, R>(ms: Attempt -> Mutator<V, R>, init: Doc<V>, s: State<V, R>, id: nat, call: Call<V, R>)
    requires Linearizable(ms, init, s) && !Committed(s.log, id)
    requires call.Returned? ==> Explained(ms, Value(init), s.log, id, call)
    ensures Linearizable(ms, init, s.(calls := s.calls[id := call]))
  {
    var t := s.(calls := s.calls[id := call]);
    forall x | x in t.calls && t.calls[x].Returned? ensures Explained(ms, Value(init), t.log, x, t.calls[x]) {
      if x != id { assert Explained(ms, Value(init), s.log, x, s.calls[x]); }
    }
  }

  /** A call that moves on without committing. */
  lemma InvMoved<V, R>(ms: Attempt -> Mutator<V, R>, init: Doc<V>, s: State<V, R>, id: nat, call: Call<V, R>)
    requires Inv(ms, init, s) && (id in s.calls ==> !s.calls[id].Returned?)
    requires call.Ready? ==> call.since <= |s.log|
    requires call.Returned? ==> Explained(ms, Value(init), s.log, id, call)
    requires call.Holding? ==> HeldCopy(ms, init, s.log, call) && !ms(Attempt(id, call.attempt))(Some(call.read)).Throw?
    ensures Inv(ms, init, s.(calls := s.calls[id := call]))
  {
    if id in s.calls { HoldingNotLogged(ms, init, s, id); }
    LinearMoved(ms, init, s, id, call);
  }

  lemma InvBegin<V, R>(ms: Attempt -> Mutator<V, R>, init: Doc<V>, s: State<V, R>, id: nat)
    requires Inv(ms, init, s) && id !in s.calls
    ensures Inv(ms, init, Begin(s, id))
  {
    InvMoved(ms, init, s, id, Ready(0, |s.log|));
  }

  lemma InvRead<V, R>(ms: Attempt -> Mutator<V, R>, init: Doc<V>, s: State<V, R>, id: nat)
    requires Inv(ms, init, s) && id in s.calls && s.calls[id].Ready?
    ensures Inv(ms, init, Read(ms(Turn(s, id)), s, id))
  {
    assert s.log[..|s.log|] == s.log;
    HoldingNotLogged(ms, init, s, id);
    InvMoved(ms, init, s, id, Read(ms(Turn(s, id)), s, id).calls[id]);
  }

  lemma InvNoCommit<V, R>(ms: Attempt -> Mutator<V, R>, init: Doc<V>, s: State<V, R>, id: nat)
    requires Inv(ms, init, s) && id in s.calls && s.calls[id].Holding?
    requires s.doc.Absent? || s.doc.rev != s.calls[id].rev || ms(Turn(s, id))(Some(s.calls[id].read)).Keep?
    ensures Inv(ms, init, Write(ms(Turn(s, id)), s, id))
  {
    assert s.log[..|s.log|] == s.log;
    HoldingNotLogged(ms, init, s, id);
    var call := Write(ms(Turn(s, id)), s, id).calls[id];
    if call.Returned? {
      assert HeldCopy(ms, init, s.log, s.calls[id]);
      assert Explained(ms, Value(init), s.log, id, call);
    }
    InvMoved(ms, init, s, id, call);
  }

  lemma InvStep<V(!new), R(!new)>(ms: Attempt -> Mutator<V, R>, init: Doc<V>, s: State<V, R>, t: State<V, R>)
    requires Inv(ms, init, s) && Next(ms, s, t)
    ensures Inv(ms, init, t)
  {
    var id: nat :|
      || (id !in s.calls && t == Begin(s, id))
      || (id in s.calls && s.calls[id].Ready? && t == Read(ms(Turn(s, id)), s, id))
      || (id in s.calls && s.calls[id].Holding? && t == Write(ms(Turn(s, id)), s, id));
    if id !in s.calls {
      InvBegin(ms, init, s, id);
    } else if s.calls[id].Ready? {
      InvRead(ms, init, s, id);
    } else if s.doc.Absent? || s.doc.rev != s.calls[id].rev || ms(Turn(s, id))(Some(s.calls[id].read)).Keep? {
      InvNoCommit(ms, init, s, id);
    } else {
      InvCommit(ms, init, s, id);
    }
  }

  /** Main theorem, for every document, all mutators and every interleaving. */
  lemma {:induction false} EveryTraceIsLinearizable<V(!new), R(!new)>(ms: Attempt -> Mutator<V, R>, init: Doc<V>, states: seq<State<V, R>>)
    requires Trace(ms, init, states)
    ensures forall i :: 0 <= i < |states| ==> Inv(ms, init, states[i])
  {
    if |states| > 1 {
      var n := |states| - 1;
      EveryTraceIsLinearizable(ms, init, states[..n]);
      assert states[..n][n - 1] == states[n - 1];
      InvStep(ms, init, states[n - 1], states[n]);
      forall i | 0 <= i < |states| ensures Inv(ms, init, states[i]) {
        if i < n { assert states[..n][i] == states[i]; }
      }
    } else {
      assert Fold(ms, Value(init), []) == Value(init);
    }
  }

  lemma CallsAreLinearizable<V(!new), R(!new)>(ms: Attempt -> Mutator<V, R>, init: Doc<V>, states: seq<State<V, R>>)
    requires Trace(ms, init, states)
    ensures Linearizable(ms, init, states[|states| - 1])
  {
    EveryTraceIsLinearizable(ms, init, states);
  }

  // ------------------------------------------------ how a call comes to an end

  /** Every attempt but the last was lost to a commit made during the call, so that a
      call gives up only after eight such. */
  predicate LostToOthers<V, R>(init: Doc<V>, log: seq<Attempt>, call: Call<V, R>) {
    match call
    case Ready(attempt, since) => attempt < 8 && since + attempt <= |log|
    case Holding(attempt, since, _, rev) => attempt < 8 && init.Present? && since + attempt <= rev - init.rev <= |log|
    case Returned(attempt, _, since, at) => attempt < 8 && since + attempt <= at <= |log|
    case GaveUp(since) => since + 8 <= |log|
  }

  ghost predicate AllLostToOthers<V, R>(init: Doc<V>, s: State<V, R>) {
    forall id :: id in s.calls ==> LostToOthers(init, s.log, s.calls[id])
  }

  lemma LostLonger<V, R>(init: Doc<V>, log: seq<Attempt>, longer: seq<Attempt>, call: Call<V, R>)
    requires LostToOthers(init, log, call) && |log| <= |longer|
    ensures LostToOthers(init, longer, call)
  {
  }

  /** A caller moves on. */
  lemma LostMoved<V, R>(init: Doc<V>, s: State<V, R>, t: State<V, R>, id: nat)
    requires AllLostToOthers(init, s) && |s.log| <= |t.log| && id in t.calls && t.calls == s.calls[id := t.calls[id]]
    requires LostToOthers(init, t.log, t.calls[id])
    ensures AllLostToOthers(init, t)
  {
    forall x | x in t.calls ensures LostToOthers(init, t.log, t.calls[x]) {
      if x != id { LostLonger(init, s.log, t.log, s.calls[x]); }
    }
  }

  /** A copy that is out of date was overtaken. */
  lemma Overtaken<V, R>(ms: Attempt -> Mutator<V, R>, init: Doc<V>, s: State<V, R>, id: nat)
    requires Inv(ms, init, s) && id in s.calls && s.calls[id].Holding? && (s.doc.Absent? || s.doc.rev != s.calls[id].rev)
    ensures init.Present? && s.calls[id].rev - init.rev < |s.log|
  {
    assert HeldCopy(ms, init, s.log, s.calls[id]);
    assert s.log[..|s.log|] == s.log;
  }

  lemma LostAttempt<V, R>(ms: Attempt -> Mutator<V, R>, init: Doc<V>, s: State<V, R>, id: nat)
    requires Inv(ms, init, s) && AllLostToOthers(init, s) && id in s.calls && s.calls[id].Holding?
    requires s.doc.Absent? || s.doc.rev != s.calls[id].rev
    ensures AllLostToOthers(init, Write(ms(Turn(s, id)), s, id))
  {
    Overtaken(ms, init, s, id);
    assert LostToOthers(init, s.log, s.calls[id]);
    LostMoved(init, s, Write(ms(Turn(s, id)), s, id), id);
  }

  lemma WonAttempt<V, R>(ms: Attempt -> Mutator<V, R>, init: Doc<V>, s: State<V, R>, id: nat)
    requires AllLostToOthers(init, s) && id in s.calls && s.calls[id].Holding?
    requires s.doc.Present? && s.doc.rev == s.calls[id].rev
    ensures AllLostToOthers(init, Write(ms(Turn(s, id)), s, id))
  {
    assert LostToOthers(init, s.log, s.calls[id]);
    LostMoved(init, s, Write(ms(Turn(s, id)), s, id), id);
  }

  lemma LostRead<V, R>(ms: Attempt -> Mutator<V, R>, init: Doc<V>, s: State<V, R>, id: nat)
    requires Inv(ms, init, s) && AllLostToOthers(init, s) && id in s.calls && s.calls[id].Ready?
    ensures AllLostToOthers(init, Read(ms(Turn(s, id)), s, id))
  {
    assert LostToOthers(init, s.log, s.calls[id]);
    LostMoved(init, s, Read(ms(Turn(s, id)), s, id), id);
  }

  lemma LostNext<V(!new), R(!new)>(ms: Attempt -> Mutator<V, R>, init: Doc<V>, s: State<V, R>, t: State<V, R>)
    requires Inv(ms, init, s) && AllLostToOthers(init, s) && Next(ms, s, t)
    ensures AllLostToOthers(init, t)
  {
    var id: nat :|
      || (id !in s.calls && t == Begin(s, id))
      || (id in s.calls && s.calls[id].Ready? && t == Read(ms(Turn(s, id)), s, id))
      || (id in s.calls && s.calls[id].Holding? && t == Write(ms(Turn(s, id)), s, id));
    if id !in s.calls { LostMoved(init, s, t, id); }
    else if s.calls[id].Ready? { LostRead(ms, init, s, id); }
    else if s.doc.Absent? || s.doc.rev != s.calls[id].rev { LostAttempt(ms, init, s, id); }
    else { WonAttempt(ms, init, s, id); }
  }

  /** In every interleaving: a caller is in its k-th attempt only if k commits of others
      came in between, and gives up only after eight. */
  lemma {:induction false} AttemptsAreLostToOthers<V(!new), R(!new)>(ms: Attempt -> Mutator<V, R>, init: Doc<V>, states: seq<State<V, R>>)
    requires Trace(ms, init, states)
    ensures AllLostToOthers(init, states[|states| - 1])
  {
    if |states| > 1 {
      var n := |states| - 1;
      EveryTraceIsLinearizable(ms, init, states);
      AttemptsAreLostToOthers(ms, init, states[..n]);
      LostNext(ms, init, states[n - 1], states[n]);
    }
  }

  /** The steps a call may still take. */
  function StepsLeft<V, R>(s: State<V, R>, id: nat): int {
    if id !in s.calls then 17
    else
      match s.calls[id]
      case Ready(attempt, _) => 16 - 2 * attempt
      case Holding(attempt, _, _, _) => 15 - 2 * attempt
      case _ => 0
  }

  /** Whatever others do, a call ends after at most sixteen steps of its own: each takes
      it forward, and there is one to take until it has returned or given up. */
  lemma CallsEnd<V(!new), R(!new)>(ms: Attempt -> Mutator<V, R>, init: Doc<V>, states: seq<State<V, R>>, id: nat)
    requires Trace(ms, init, states)
    ensures var s := states[|states| - 1];
            && StepsLeft(s, id) >= 0
            && (id !in s.calls ==> StepsLeft(Begin(s, id), id) == 16)
            && (id in s.calls && s.calls[id].Ready? ==>
                  StepsLeft(s, id) > 0 && StepsLeft(Read(ms(Turn(s, id)), s, id), id) < StepsLeft(s, id))
            && (id in s.calls && s.calls[id].Holding? ==>
                  StepsLeft(s, id) > 0 && StepsLeft(Write(ms(Turn(s, id)), s, id), id) < StepsLeft(s, id))
  {
    AttemptsAreLostToOthers(ms, init, states);
    var s := states[|states| - 1];
    if id in s.calls { assert LostToOthers(init, s.log, s.calls[id]); }
  }

  // ------------------------------------- writers that keep the revision

  /** A write that changes the document but not its revision, as the bulk
      revocation of a client's grants does. */
  function Overwrite<V, R>(s: State<V, R>, value: V): State<V, R>
    requires s.doc.Present?
  {
    s.(doc := Present(value, s.doc.rev))
  }

  /** A step of the loop, or such a write of a value that has `p`. */
  ghost predicate NextOrOverwrite<V(!new), R(!new)>(ms: Attempt -> Mutator<V, R>, p: V -> bool, s: State<V, R>, t: State<V, R>) {
    Next(ms, s, t) || exists value: V :: p(value) && s.doc.Present? && t == Overwrite(s, value)
  }

  ghost predicate StepAt<V(!new), R(!new)>(ms: Attempt -> Mutator<V, R>, p: V -> bool, states: seq<State<V, R>>, i: nat)
    requires i + 1 < |states|
  {
    NextOrOverwrite(ms, p, states[i], states[i + 1])
  }

  /** No stored document lacks `p`. */
  predicate Has<V>(p: V -> bool, doc: Doc<V>) {
    doc.Present? ==> p(doc.value)
  }

  /** No mutator takes `p` away. */
  ghost predicate MutatorsKeep<V(!new), R>(ms: Attempt -> Mutator<V, R>, p: V -> bool) {
    forall turn: Attempt, v: V :: p(v) && ms(turn)(Some(v)).Put? ==> p(ms(turn)(Some(v)).value)
  }

  /** From `s` to `t` a caller commits a value without `p`, computed from a copy it
      already held at `before`. */
  ghost predicate Undoes<V, R>(ms: Attempt -> Mutator<V, R>, p: V -> bool, before: State<V, R>, s: State<V, R>, t: State<V, R>, id: nat) {
    && id in before.calls && before.calls[id].Holding? && id in s.calls && s.calls[id] == before.calls[id]
    && s.doc.Present? && s.doc.rev == s.calls[id].rev
    && var outcome := ms(Turn(s, id))(Some(s.calls[id].read));
    && outcome.Put? && !p(outcome.value) && t == Write(ms(Turn(s, id)), s, id)
  }

  ghost predicate CopiesHave<V, R>(p: V -> bool, before: State<V, R>, s: State<V, R>) {
    forall id :: id in s.calls && s.calls[id].Holding? && !p(s.calls[id].read) ==> id in before.calls && before.calls[id] == s.calls[id]
  }

  lemma UndoneByAStaleCopy<V(!new), R(!new)>(ms: Attempt -> Mutator<V, R>, p: V -> bool, before: State<V, R>, s: State<V, R>, t: State<V, R>)
    requires MutatorsKeep(ms, p) && Has(p, s.doc) && CopiesHave(p, before, s) && NextOrOverwrite(ms, p, s, t)
    ensures Has(p, t.doc) ==> CopiesHave(p, before, t)
    ensures Has(p, t.doc) <==> !Undone(ms, p, before, s, t)
  {
    if Next(ms, s, t) {
      var id: nat :|
        || (id !in s.calls && t == Begin(s, id))
        || (id in s.calls && s.calls[id].Ready? && t == Read(ms(Turn(s, id)), s, id))
        || (id in s.calls && s.calls[id].Holding? && t == Write(ms(Turn(s, id)), s, id));
      if !Has(p, t.doc) { assert Undoes(ms, p, before, s, t, id); }
    }
  }

  ghost predicate Undone<V, R>(ms: Attempt -> Mutator<V, R>, p: V -> bool, before: State<V, R>, s: State<V, R>, t: State<V, R>) {
    exists id: nat :: Undoes(ms, p, before, s, t, id)
  }

  ghost predicate UndoneAt<V, R>(ms: Attempt -> Mutator<V, R>, p: V -> bool, states: seq<State<V, R>>, k: nat, i: nat)
    requires k < |states| && i + 1 < |states|
  {
    Undone(ms, p, states[k], states[i], states[i + 1])
  }

  ghost predicate StillHas<V, R>(p: V -> bool, states: seq<State<V, R>>, k: nat, i: nat)
    requires k < |states| && i < |states|
  {
    Has(p, states[i].doc) && CopiesHave(p, states[k], states[i])
  }

  lemma {:induction false} KeptUntilUndone<V(!new), R(!new)>(ms: Attempt -> Mutator<V, R>, p: V -> bool, states: seq<State<V, R>>, k: nat, i: nat)
    requires MutatorsKeep(ms, p) && k <= i < |states| && Has(p, states[k].doc)
    requires forall j :: k <= j < |states| - 1 ==> StepAt(ms, p, states, j)
    requires forall j :: k <= j < i ==> !UndoneAt(ms, p, states, k, j)
    ensures StillHas(p, states, k, i)
  {
    if i > k {
      KeptUntilUndone(ms, p, states, k, i - 1);
      assert StepAt(ms, p, states, i - 1) && !UndoneAt(ms, p, states, k, i - 1);
      UndoneByAStaleCopy(ms, p, states[k], states[i - 1], states[i]);
    }
  }

  ghost predicate KeptFrom<V, R>(p: V -> bool, states: seq<State<V, R>>, k: nat) {
    forall i :: k <= i < |states| ==> Has(p, states[i].doc)
  }

  ghost predicate NeverUndone<V, R>(ms: Attempt -> Mutator<V, R>, p: V -> bool, states: seq<State<V, R>>, k: nat)
    requires k < |states|
  {
    forall i :: k <= i < |states| - 1 ==> !UndoneAt(ms, p, states, k, i)
  }

  lemma UndoneIsLost<V, R>(ms: Attempt -> Mutator<V, R>, p: V -> bool, before: State<V, R>, s: State<V, R>, t: State<V, R>)
    requires Undone(ms, p, before, s, t)
    ensures !Has(p, t.doc)
  {
  }

  /** A property that every mutator keeps and that an unbumped write gives the
      document, which is at `states[k]` then, is lost exactly when a caller that
      already held its copy commits a value without it. Callers that read later
      never take it away. */
  lemma UnbumpedWritesAreLost<V(!new), R(!new)>(ms: Attempt -> Mutator<V, R>, p: V -> bool, states: seq<State<V, R>>, k: nat)
    requires MutatorsKeep(ms, p) && k < |states| && Has(p, states[k].doc)
    requires forall j :: k <= j < |states| - 1 ==> StepAt(ms, p, states, j)
    ensures KeptFrom(p, states, k) <==> NeverUndone(ms, p, states, k)
  {
    if NeverUndone(ms, p, states, k) {
      forall i | k <= i < |states| ensures Has(p, states[i].doc) {
        KeptUntilUndone(ms, p, states, k, i);
      }
    } else {
      var i :| k <= i < |states| - 1 && UndoneAt(ms, p, states, k, i);
      UndoneIsLost(ms, p, states[k], states[i], states[i + 1]);
    }
  }
}
