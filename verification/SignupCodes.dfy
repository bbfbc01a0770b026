/** Email codes of a pending signup: the verify and resend mutators, run through
    the revision loop by any number of concurrent requests. */
module SignupCodes {
  import opened Base
  import opened RevisionLoop

  const MAX_ATTEMPTS_PER_CODE := 5
  const MAX_RESENDS := 5
  const COOLDOWN_SECONDS := 60
  const TTL_SECONDS := 10 * 60
  const MAX_COMPARISONS := MAX_ATTEMPTS_PER_CODE * (1 + MAX_RESENDS)

  /** The digest of a code, by what it covers. */
  datatype CodeHash = CodeHash(pendingId: string, code: string)
  datatype Pending = Pending(id: string, codeHash: CodeHash, expiresAt: int, attempts: int, resends: int, lastSentAt: int)

  datatype Verdict = GoneOrExpired | TooManyAttempts | WrongCode(attemptsLeft: int) | Ok | NoMoreResends | Cooldown | Resent

  /** A verdict that answers whether a presented code is the stored one. */
  predicate Answers(v: Verdict) {
    v.Ok? || v.WrongCode?
  }

  datatype Request = Verify(code: string, now: int) | Resend(code: string, now: int)

  function VerifyPending(p: Option<Pending>, code: string, now: int): Outcome<Pending, Verdict> {
    if p.None? then Keep(GoneOrExpired)
    else if p.value.expiresAt <= now then Remove(GoneOrExpired)
    else if p.value.attempts >= MAX_ATTEMPTS_PER_CODE then Remove(TooManyAttempts)
    else if p.value.codeHash != CodeHash(p.value.id, code) then
      var next := p.value.(attempts := p.value.attempts + 1);
      Put(next, WrongCode(MAX_ATTEMPTS_PER_CODE - next.attempts))
    else Remove(Ok)
  }

  function ResendPending(p: Option<Pending>, code: string, now: int): Outcome<Pending, Verdict> {
    if p.None? then Keep(GoneOrExpired)
    else if p.value.expiresAt <= now then Remove(GoneOrExpired)
    else if p.value.resends >= MAX_RESENDS then Put(p.value, NoMoreResends)
    else if now - p.value.lastSentAt < COOLDOWN_SECONDS then Put(p.value, Cooldown)
    else Put(p.value.(resends := p.value.resends + 1, lastSentAt := now, attempts := 0,
                      codeHash := CodeHash(p.value.id, code), expiresAt := now + TTL_SECONDS), Resent)
  }

  function Handle(r: Request, p: Option<Pending>): Outcome<Pending, Verdict> {
    match r
    case Verify(code, now) => VerifyPending(p, code, now)
    case Resend(code, now) => ResendPending(p, code, now)
  }

  /** The record the mutators edit in place. */
  class PendingSignup {
    const id: string
    var codeHash: CodeHash
    var expiresAt: int
    var attempts: int
    var resends: int
    var lastSentAt: int

    constructor (id: string, code: string, now: int)
      ensures View() == Fresh(id, code, now)
    {
      this.id, codeHash, expiresAt := id, CodeHash(id, code), now + TTL_SECONDS;
      attempts, resends, lastSentAt := 0, 0, now;
    }

    ghost function View(): Pending
      reads this
    {
      Pending(id, codeHash, expiresAt, attempts, resends, lastSentAt)
    }

    /** `delete` asks for the record's removal. */
    method Verify(code: string, now: int) returns (verdict: Verdict, delete: bool)
      modifies this
      ensures VerifyPending(Some(old(View())), code, now) == if delete then Remove(verdict) else Put(View(), verdict)
    {
      if expiresAt <= now { return GoneOrExpired, true; }
      if attempts >= MAX_ATTEMPTS_PER_CODE { return TooManyAttempts, true; }
      if codeHash != CodeHash(id, code) {
        attempts := attempts + 1;
        return WrongCode(MAX_ATTEMPTS_PER_CODE - attempts), false;
      }
      return Ok, true;
    }

    method Resend(code: string, now: int) returns (verdict: Verdict, delete: bool)
      modifies this
      ensures ResendPending(Some(old(View())), code, now) == if delete then Remove(verdict) else Put(View(), verdict)
    {
      if expiresAt <= now { return GoneOrExpired, true; }
      if resends >= MAX_RESENDS { return NoMoreResends, false; }
      if now - lastSentAt < COOLDOWN_SECONDS { return Cooldown, false; }
      resends, lastSentAt, attempts := resends + 1, now, 0;
      codeHash, expiresAt := CodeHash(id, code), now + TTL_SECONDS;
      return Resent, false;
    }
  }

  function Fresh(id: string, code: string, now: int): Pending {
    Pending(id, CodeHash(id, code), now + TTL_SECONDS, 0, 0, now)
  }

  // ------------------------------------------------------------ the bound

  ghost function Mutators(requests: Attempt -> Request): Attempt -> Mutator<Pending, Verdict> {
    turn => (p: Option<Pending>) => Handle(requests(turn), p)
  }

  ghost predicate Compared(ms: Attempt -> Mutator<Pending, Verdict>, init: Option<Pending>, log: seq<Attempt>)
    requires log != []
  {
    Answers(ms(log[|log| - 1])(Fold(ms, init, log[..|log| - 1])).result)
  }

  /** The committed callers that were told whether their code is right. */
  ghost function Answered(ms: Attempt -> Mutator<Pending, Verdict>, init: Option<Pending>, log: seq<Attempt>): set<nat> {
    if log == [] then {}
    else Answered(ms, init, log[..|log| - 1]) + if Compared(ms, init, log) then {log[|log| - 1].caller} else {}
  }

  /** How many comparisons a record can still be asked for. */
  function Budget(p: Option<Pending>): int {
    if p.None? then 0
    else MAX_ATTEMPTS_PER_CODE * (MAX_RESENDS - p.value.resends) + MAX_ATTEMPTS_PER_CODE - p.value.attempts
  }

  predicate WithinLimits(p: Option<Pending>) {
    p.Some? ==> 0 <= p.value.attempts <= MAX_ATTEMPTS_PER_CODE && 0 <= p.value.resends <= MAX_RESENDS
  }

  /** Every answer spends at least one comparison, and no request adds any. */
  lemma BudgetSpent(r: Request, p: Option<Pending>)
    requires WithinLimits(p)
    ensures var next := Apply((d: Option<Pending>) => Handle(r, d), p);
            WithinLimits(next) && Budget(next) + (if Answers(Handle(r, p).result) then 1 else 0) <= Budget(p)
  {
  }

  lemma FoldedApply(requests: Attempt -> Request, init: Option<Pending>, log: seq<Attempt>)
    requires log != []
    ensures var ms := Mutators(requests);
            var before := Fold(ms, init, log[..|log| - 1]);
            && Fold(ms, init, log) == Apply((d: Option<Pending>) => Handle(requests(log[|log| - 1]), d), before)
            && (Compared(ms, init, log) <==> Answers(Handle(requests(log[|log| - 1]), before).result))
  {
  }

  lemma {:induction false} AnsweredWithinBudget(requests: Attempt -> Request, init: Option<Pending>, log: seq<Attempt>)
    requires WithinLimits(init)
    ensures WithinLimits(Fold(Mutators(requests), init, log))
    ensures |Answered(Mutators(requests), init, log)| + Budget(Fold(Mutators(requests), init, log)) <= Budget(init)
  {
    if log != [] {
      AnsweredWithinBudget(requests, init, log[..|log| - 1]);
      FoldedApply(requests, init, log);
      BudgetSpent(requests(log[|log| - 1]), Fold(Mutators(requests), init, log[..|log| - 1]));
    }
  }

  /** The verdict of a returned call is an answer exactly for the answered callers. */
  lemma AnsweredLast(ms: Attempt -> Mutator<Pending, Verdict>, init: Option<Pending>, log: seq<Attempt>)
    requires log != [] && Compared(ms, init, log)
    ensures log[|log| - 1].caller in Answered(ms, init, log)
  {
  }

  lemma AnsweredGrows(ms: Attempt -> Mutator<Pending, Verdict>, init: Option<Pending>, log: seq<Attempt>)
    requires log != []
    ensures Answered(ms, init, log[..|log| - 1]) <= Answered(ms, init, log)
  {
  }

  lemma {:induction false} AnsweredAt(ms: Attempt -> Mutator<Pending, Verdict>, init: Option<Pending>, log: seq<Attempt>, at: nat)
    requires at < |log| && Compared(ms, init, log[..at + 1])
    ensures log[at].caller in Answered(ms, init, log)
  {
    var n := |log| - 1;
    if at == n {
      assert log[..at + 1] == log;
      AnsweredLast(ms, init, log);
    } else {
      assert log[..n][..at + 1] == log[..at + 1];
      AnsweredAt(ms, init, log[..n], at);
      AnsweredGrows(ms, init, log);
    }
  }

  ghost predicate ToldAnswer(s: State<Pending, Verdict>, id: nat) {
    id in s.calls && s.calls[id].Returned? && Answers(s.calls[id].result)
  }

  ghost function Told(s: State<Pending, Verdict>): set<nat> {
    set x | x in s.calls && ToldAnswer(s, x)
  }

  lemma ExplainedAnswer(requests: Attempt -> Request, init: Option<Pending>, log: seq<Attempt>, id: nat, call: Call<Pending, Verdict>)
    requires call.Returned? && Answers(call.result) && Explained(Mutators(requests), init, log, id, call)
    ensures id in Answered(Mutators(requests), init, log)
  {
    var ms := Mutators(requests);
    var doc := Fold(ms, init, log[..call.at]);
    var turn := Attempt(id, call.attempt);
    assert ms(turn)(doc) == Handle(requests(turn), doc);
    assert !Handle(requests(turn), doc).Throw? && !Handle(requests(turn), doc).Keep? && doc.Some?;
    assert log[..call.at + 1][..call.at] == log[..call.at];
    AnsweredAt(Mutators(requests), init, log, call.at);
  }

  lemma ToldCallersAreAnswered(requests: Attempt -> Request, init: Pending, states: seq<State<Pending, Verdict>>, id: nat)
    requires Trace(Mutators(requests), Present(init, 1), states)
    requires ToldAnswer(states[|states| - 1], id)
    ensures id in Answered(Mutators(requests), Some(init), states[|states| - 1].log)
  {
    var s := states[|states| - 1];
    CallsAreLinearizable(Mutators(requests), Present(init, 1), states);
    ExplainedAnswer(requests, Some(init), s.log, id, s.calls[id]);
  }

  /** Main theorem: whatever codes are presented or requested, whenever, and
      however the calls interleave, at most thirty callers are ever told whether
      a code is right. */
  lemma AtMostThirtyAnswers(requests: Attempt -> Request, id: string, code: string, now: int, states: seq<State<Pending, Verdict>>)
    requires Trace(Mutators(requests), Present(Fresh(id, code, now), 1), states)
    ensures |Told(states[|states| - 1])| <= MAX_COMPARISONS
  {
    var init := Fresh(id, code, now);
    var s := states[|states| - 1];
    var told := Told(s);
    var answered := Answered(Mutators(requests), Some(init), s.log);
    forall x | x in told ensures x in answered {
      ToldCallersAreAnswered(requests, init, states, x);
    }
    AnsweredWithinBudget(requests, Some(init), s.log);
    SubsetSize(told, answered);
  }

  lemma {:induction false} SubsetSize(a: set<nat>, b: set<nat>)
    requires a <= b
    ensures |a| <= |b|
  {
    assert b == a + (b - a);
  }

  lemma ExplainedOk(requests: Attempt -> Request, init: Option<Pending>, log: seq<Attempt>, id: nat, call: Call<Pending, Verdict>)
    requires call.Returned? && call.result == Ok && Explained(Mutators(requests), init, log, id, call)
    ensures call.at < |log| && log[call.at] == Attempt(id, call.attempt)
    ensures Fold(Mutators(requests), init, log[..call.at]).Some?
    ensures Mutators(requests)(log[call.at])(Fold(Mutators(requests), init, log[..call.at])).Remove?
  {
    var doc := Fold(Mutators(requests), init, log[..call.at]);
    var turn := Attempt(id, call.attempt);
    assert Mutators(requests)(turn)(doc) == Handle(requests(turn), doc);
  }

  /** A caller told "ok" consumed the record: nobody else ever is. */
  lemma AtMostOneOk(requests: Attempt -> Request, init: Pending, states: seq<State<Pending, Verdict>>, a: nat, b: nat)
    requires Trace(Mutators(requests), Present(init, 1), states)
    requires var s := states[|states| - 1];
             a in s.calls && b in s.calls && s.calls[a].Returned? && s.calls[b].Returned?
             && s.calls[a].result == Ok && s.calls[b].result == Ok
    ensures a == b
  {
    var ms, s := Mutators(requests), states[|states| - 1];
    CallsAreLinearizable(ms, Present(init, 1), states);
    ExplainedOk(requests, Some(init), s.log, a, s.calls[a]);
    ExplainedOk(requests, Some(init), s.log, b, s.calls[b]);
    var i, j := s.calls[a].at, s.calls[b].at;
    if i < j {
      ConsumedStays(ms, Some(init), s.log, i, j);
    } else if j < i {
      ConsumedStays(ms, Some(init), s.log, j, i);
    }
  }

  lemma {:induction false} ConsumedStays(ms: Attempt -> Mutator<Pending, Verdict>, init: Option<Pending>, log: seq<Attempt>, i: nat, j: nat)
    requires i < j <= |log| && ms(log[i])(Fold(ms, init, log[..i])).Remove?
    ensures Fold(ms, init, log[..j]).None?
    decreases j
  {
    assert log[..j][..j - 1] == log[..j - 1];
    if i + 1 < j {
      ConsumedStays(ms, init, log, i, j - 1);
    }
  }

  // ------------------------------------- the verdict, by what others were told

  /** What each committed caller was told, in order. */
  ghost function ToldSoFar(requests: Attempt -> Request, init: Option<Pending>, log: seq<Attempt>): (told: seq<Verdict>)
    ensures |told| == |log|
  {
    if log == [] then []
    else
      var n := |log| - 1;
      ToldSoFar(requests, init, log[..n]) + [Handle(requests(log[n]), Fold(Mutators(requests), init, log[..n])).result]
  }

  /** An answer after which the signup is gone. */
  predicate Ends(v: Verdict) {
    v.Ok? || v.TooManyAttempts? || v.GoneOrExpired?
  }

  predicate StillThere(told: seq<Verdict>) {
    forall i :: 0 <= i < |told| ==> !Ends(told[i])
  }

  /** The code sent last, at the signup or by the last resend, and when. */
  function LastSent(requests: Attempt -> Request, log: seq<Attempt>, told: seq<Verdict>, code: string, at: int): (string, int)
    requires |told| == |log|
  {
    if log == [] then (code, at)
    else
      var n := |log| - 1;
      if told[n].Resent? then (requests(log[n]).code, requests(log[n]).now)
      else LastSent(requests, log[..n], told[..n], code, at)
  }

  /** How many wrong codes were presented since. */
  function WrongSince(told: seq<Verdict>): nat {
    if told == [] || told[|told| - 1].Resent? then 0
    else WrongSince(told[..|told| - 1]) + if told[|told| - 1].WrongCode? then 1 else 0
  }

  function ResendsIn(told: seq<Verdict>): nat {
    if told == [] then 0 else ResendsIn(told[..|told| - 1]) + if told[|told| - 1].Resent? then 1 else 0
  }

  /** The verdict owed to a request, given what those before it were told. */
  function Owed(r: Request, there: bool, sent: (string, int), wrong: nat, resends: nat): Verdict {
    if !there || r.now >= sent.1 + 600 then GoneOrExpired
    else
      match r
      case Verify(code, _) =>
        if wrong >= 5 then TooManyAttempts else if code == sent.0 then Ok else WrongCode(5 - wrong - 1)
      case Resend(_, now) =>
        if resends >= 5 then NoMoreResends else if now < sent.1 + 60 then Cooldown else Resent
  }

  ghost function OwedAfter(requests: Attempt -> Request, log: seq<Attempt>, told: seq<Verdict>, code: string, at: int, r: Request): Verdict
    requires |told| == |log|
  {
    Owed(r, StillThere(told), LastSent(requests, log, told, code, at), WrongSince(told), ResendsIn(told))
  }

  ghost predicate RecordIsHistory(requests: Attempt -> Request, log: seq<Attempt>, told: seq<Verdict>, id: string, code: string, at: int, doc: Option<Pending>)
    requires |told| == |log|
  {
    && (doc.Some? <==> StillThere(told))
    && (doc.Some? ==>
          var sent := LastSent(requests, log, told, code, at);
          doc.value == Pending(id, CodeHash(id, sent.0), sent.1 + TTL_SECONDS, WrongSince(told), ResendsIn(told), sent.1))
  }

  lemma OwedByRecord(requests: Attempt -> Request, log: seq<Attempt>, told: seq<Verdict>, id: string, code: string, at: int, doc: Option<Pending>, r: Request)
    requires |told| == |log| && RecordIsHistory(requests, log, told, id, code, at, doc)
    ensures Handle(r, doc).result == OwedAfter(requests, log, told, code, at, r)
  {
  }

  lemma RecordStep(requests: Attempt -> Request, log: seq<Attempt>, told: seq<Verdict>, turn: Attempt, id: string, code: string, at: int, doc: Option<Pending>)
    requires |told| == |log| && RecordIsHistory(requests, log, told, id, code, at, doc)
    ensures var m := (d: Option<Pending>) => Handle(requests(turn), d);
            RecordIsHistory(requests, log + [turn], told + [Handle(requests(turn), doc).result], id, code, at, Apply(m, doc))
  {
    var v := Handle(requests(turn), doc).result;
    assert (log + [turn])[..|log|] == log && (told + [v])[..|told|] == told;
    assert StillThere(told + [v]) <==> StillThere(told) && !Ends(v) by {
      assert (told + [v])[|told|] == v;
      assert forall i :: 0 <= i < |told| ==> (told + [v])[i] == told[i];
    }
  }

  lemma {:induction false} HistoryOfRecord(requests: Attempt -> Request, id: string, code: string, at: int, log: seq<Attempt>)
    ensures RecordIsHistory(requests, log, ToldSoFar(requests, Some(Fresh(id, code, at)), log), id, code, at,
                            Fold(Mutators(requests), Some(Fresh(id, code, at)), log))
  {
    var init := Some(Fresh(id, code, at));
    if log != [] {
      var n := |log| - 1;
      HistoryOfRecord(requests, id, code, at, log[..n]);
      RecordStep(requests, log[..n], ToldSoFar(requests, init, log[..n]), log[n], id, code, at, Fold(Mutators(requests), init, log[..n]));
      FoldedApply(requests, init, log);
      assert log[..n] + [log[n]] == log;
    }
  }

  /** Main theorem: whatever the interleaving, every caller that returned was told what
      is owed to it after those committed before it. In particular it was told "ok"
      exactly if the signup was still there, its code had been sent less than ten
      minutes before, fewer than five wrong codes were presented since, and the code
      it presented was the one sent last. */
  lemma ToldByHistory(requests: Attempt -> Request, id: string, code: string, at: int, states: seq<State<Pending, Verdict>>, x: nat)
    requires Trace(Mutators(requests), Present(Fresh(id, code, at), 1), states)
    requires var s := states[|states| - 1]; x in s.calls && s.calls[x].Returned?
    ensures var s := states[|states| - 1];
            var call := s.calls[x];
            && call.since <= call.at <= |s.log|
            && var before := s.log[..call.at];
            && var told := ToldSoFar(requests, Some(Fresh(id, code, at)), before);
            && call.result == OwedAfter(requests, before, told, code, at, requests(Attempt(x, call.attempt)))
  {
    var s := states[|states| - 1];
    var init := Some(Fresh(id, code, at));
    CallsAreLinearizable(Mutators(requests), Present(Fresh(id, code, at), 1), states);
    var call := s.calls[x];
    assert Explained(Mutators(requests), init, s.log, x, call);
    var before := s.log[..call.at];
    HistoryOfRecord(requests, id, code, at, before);
    OwedByRecord(requests, before, ToldSoFar(requests, init, before), id, code, at, Fold(Mutators(requests), init, before), requests(Attempt(x, call.attempt)));
  }

  // ---------------------------------------------------- the bound is tight

  /** Five wrong codes, a resend a minute later, and again. */
  function Persistent(turn: Attempt): Request {
    var k := turn.caller;
    if k % 6 < 5 then Verify("no", 60 * (k / 6)) else Resend("yes", 60 * (k / 6 + 1))
  }

  function PersistentRecord(n: nat): Pending {
    Pending("p", CodeHash("p", "yes"), 60 * (n / 6) + TTL_SECONDS, n % 6, n / 6, 60 * (n / 6))
  }

  /** The first `n` callers, one after the other, each done in its first attempt. */
  function PersistentCalls(n: nat): map<nat, Call<Pending, Verdict>> {
    if n == 0 then map[]
    else
      var answer := Handle(Persistent(Attempt(n - 1, 0)), Some(PersistentRecord(n - 1))).result;
      PersistentCalls(n - 1)[n - 1 := Returned(0, answer, n - 1, n - 1)]
  }

  function FirstTurns(n: nat): seq<Attempt> {
    if n == 0 then [] else FirstTurns(n - 1) + [Attempt(n - 1, 0)]
  }

  function PersistentState(n: nat): State<Pending, Verdict> {
    State(Present(PersistentRecord(n), n + 1), FirstTurns(n), PersistentCalls(n))
  }

  lemma PersistentStep(n: nat)
    requires n < 35
    ensures var o := Handle(Persistent(Attempt(n, 0)), Some(PersistentRecord(n)));
            o.Put? && o.value == PersistentRecord(n + 1) && (Answers(o.result) <==> n % 6 < 5)
  {
    assert "no" != "yes";
  }

  lemma {:induction false} PersistentShape(n: nat)
    ensures |FirstTurns(n)| == n && forall x: nat :: x in PersistentCalls(n) <==> x < n
  {
    if n > 0 { PersistentShape(n - 1); }
  }

  lemma Extend(requests: Attempt -> Request, init: Doc<Pending>, states: seq<State<Pending, Verdict>>, t: State<Pending, Verdict>)
    requires Trace(Mutators(requests), init, states) && Next(Mutators(requests), states[|states| - 1], t)
    ensures Trace(Mutators(requests), init, states + [t])
  {
  }

  /** A caller that begins, reads and writes undisturbed. */
  lemma PersistentTurn(n: nat) returns (begun: State<Pending, Verdict>, held: State<Pending, Verdict>)
    requires n < 35
    ensures var ms := Mutators(Persistent);
            Next(ms, PersistentState(n), begun) && Next(ms, begun, held) && Next(ms, held, PersistentState(n + 1))
  {
    var ms, turn, s := Mutators(Persistent), Attempt(n, 0), PersistentState(n);
    PersistentShape(n);
    PersistentStep(n);
    begun := Begin(s, n);
    assert ms(turn)(Some(PersistentRecord(n))) == Handle(Persistent(turn), Some(PersistentRecord(n)));
    held := Read(ms(Turn(begun, n)), begun, n);
    var t := PersistentState(n + 1);
    assert held.calls[n] == Holding(0, n, PersistentRecord(n), n + 1);
    assert s.calls[n := Returned(0, Handle(Persistent(turn), Some(PersistentRecord(n))).result, n, n)] == t.calls;
    assert Write(ms(Turn(held, n)), held, n).calls == t.calls;
    assert t == Write(ms(Turn(held, n)), held, n);
  }

  lemma {:induction false} PersistentProgress(n: nat) returns (states: seq<State<Pending, Verdict>>)
    requires n <= 35
    ensures Trace(Mutators(Persistent), Present(PersistentRecord(0), 1), states) && states[|states| - 1] == PersistentState(n)
  {
    if n == 0 {
      states := [PersistentState(0)];
    } else {
      states := PersistentProgress(n - 1);
      var begun, held := PersistentTurn(n - 1);
      var init := Present(PersistentRecord(0), 1);
      Extend(Persistent, init, states, begun);
      Extend(Persistent, init, states + [begun], held);
      Extend(Persistent, init, states + [begun] + [held], PersistentState(n));
      states := states + [begun] + [held] + [PersistentState(n)];
    }
  }

  lemma {:induction false} PersistentTold(n: nat)
    requires n <= 35
    ensures |Told(PersistentState(n))| == n - n / 6
  {
    if n > 0 {
      PersistentTold(n - 1);
      PersistentShape(n - 1);
      PersistentStep(n - 1);
      var before, after := Told(PersistentState(n - 1)), Told(PersistentState(n));
      assert n - 1 !in before;
      if (n - 1) % 6 < 5 { assert after == before + {n - 1}; } else { assert after == before; }
    }
  }

  /** Thirty callers of one signup can really be told. */
  lemma ThirtyAnswersAreReached()
    ensures exists states :: Trace(Mutators(Persistent), Present(Fresh("p", "yes", 0), 1), states)
                             && |Told(states[|states| - 1])| == MAX_COMPARISONS
  {
    var states := PersistentProgress(35);
    PersistentTold(35);
    assert PersistentRecord(0) == Fresh("p", "yes", 0);
  }
}
