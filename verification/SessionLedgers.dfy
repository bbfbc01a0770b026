/** Which read ledger an MCP session holds: ledgers belong to a user and client, are
    shared by all their sessions, and are dropped, like sessions, when idle. */
module SessionLedgers {
  import opened Base

  const IDLE_MS := 6 * 60 * 60 * 1000

  /** `ledger` is the identity of the map object the session was given. */
  datatype Session = Session(principal: string, ledger: nat, lastActive: int)
  datatype Ledger = Ledger(id: nat, lastActive: int)

  /** `drawn` counts the ledgers ever made. */
  datatype Registry = Registry(sessions: map<string, Session>, ledgers: map<string, Ledger>, drawn: nat)

  const EMPTY := Registry(map[], map[], 0)

  function WithLedger(r: Registry, principal: string, now: int): Registry {
    if principal in r.ledgers then r.(ledgers := r.ledgers[principal := r.ledgers[principal].(lastActive := now)])
    else r.(ledgers := r.ledgers[principal := Ledger(r.drawn, now)], drawn := r.drawn + 1)
  }

  function Get(r: Registry, key: string, principal: string, now: int): Registry {
    var s := WithLedger(r, principal, now);
    s.(sessions := s.sessions[key := if key in s.sessions then s.sessions[key].(lastActive := now)
                                     else Session(principal, s.ledgers[principal].id, now)])
  }

  /** A tool call is counted some time after the session was looked up. */
  function CountCall(r: Registry, key: string, now: int): Registry {
    if key in r.sessions then r.(sessions := r.sessions[key := r.sessions[key].(lastActive := now)]) else r
  }

  function Drop(r: Registry, key: string): Registry {
    r.(sessions := r.sessions - {key})
  }

  function Sweep(r: Registry, now: int): Registry {
    r.(sessions := map key | key in r.sessions && r.sessions[key].lastActive >= now - IDLE_MS :: r.sessions[key],
       ledgers := map p | p in r.ledgers && r.ledgers[p].lastActive >= now - IDLE_MS :: r.ledgers[p])
  }

  class SessionRegistry {
    var sessions: map<string, Session>
    var ledgers: map<string, Ledger>
    var drawn: nat

    function Contents(): Registry
      reads this
    {
      Registry(sessions, ledgers, drawn)
    }

    constructor ()
      ensures Contents() == EMPTY
    {
      sessions, ledgers, drawn := map[], map[], 0;
    }

    method Lookup(key: string, principal: string, now: int) returns (session: Session)
      modifies this
      ensures Contents() == Get(old(Contents()), key, principal, now)
      ensures key in sessions && session == sessions[key]
    {
      if principal !in ledgers {
        ledgers := ledgers[principal := Ledger(drawn, now)];
        drawn := drawn + 1;
      }
      var ledger := ledgers[principal].(lastActive := now);
      ledgers := ledgers[principal := ledger];
      if key !in sessions { sessions := sessions[key := Session(principal, ledger.id, now)]; }
      session := sessions[key].(lastActive := now);
      sessions := sessions[key := session];
    }

    /** The sweep timer: one loop over the sessions, one over the ledgers. */
    method SweepIdle(now: int)
      modifies this
      ensures Contents() == Sweep(old(Contents()), now)
    {
      SweepSessions(now);
      SweepLedgers(now);
    }

    method SweepSessions(now: int)
      modifies this`sessions
      ensures sessions == Sweep(old(Contents()), now).sessions
    {
      var keys := sessions.Keys;
      while keys != {}
        invariant keys <= sessions.Keys <= old(sessions).Keys
        invariant forall k :: k in sessions ==> sessions[k] == old(sessions)[k]
        invariant forall k :: k in old(sessions) && k !in keys ==> (k in sessions <==> old(sessions)[k].lastActive >= now - IDLE_MS)
        decreases |keys|
      {
        var key :| key in keys;
        keys := keys - {key};
        if sessions[key].lastActive < now - IDLE_MS { sessions := sessions - {key}; }
      }
    }

    method SweepLedgers(now: int)
      modifies this`ledgers
      ensures ledgers == Sweep(old(Contents()), now).ledgers
    {
      var principals := ledgers.Keys;
      while principals != {}
        invariant principals <= ledgers.Keys <= old(ledgers).Keys
        invariant forall p :: p in ledgers ==> ledgers[p] == old(ledgers)[p]
        invariant forall p :: p in old(ledgers) && p !in principals ==> (p in ledgers <==> old(ledgers)[p].lastActive >= now - IDLE_MS)
        decreases |principals|
      {
        var p :| p in principals;
        principals := principals - {p};
        if ledgers[p].lastActive < now - IDLE_MS { ledgers := ledgers - {p}; }
      }
    }
  }

  // ---------------------------------------------------------------- sharing

  datatype Op =
    | GetOp(key: string, principal: string, now: int)
    | CallOp(key: string, now: int)
    | DropOp(key: string)
    | SweepOp(now: int)

  /** A session key is always presented by the principal it was made for. */
  predicate Enabled(r: Registry, op: Op) {
    op.GetOp? && op.key in r.sessions ==> r.sessions[op.key].principal == op.principal
  }

  function Step(r: Registry, op: Op): Registry {
    match op
    case GetOp(key, principal, now) => Get(r, key, principal, now)
    case CallOp(key, now) => CountCall(r, key, now)
    case DropOp(key) => Drop(r, key)
    case SweepOp(now) => Sweep(r, now)
  }

  predicate Run(r: Registry, ops: seq<Op>, t: Registry)
    decreases |ops|
  {
    if ops == [] then r == t else Enabled(r, ops[0]) && Run(Step(r, ops[0]), ops[1..], t)
  }

  predicate HoldsCurrent(r: Registry, key: string)
    requires key in r.sessions
  {
    var s := r.sessions[key];
    s.principal in r.ledgers && r.ledgers[s.principal].id == s.ledger
  }

  /** Every live session holds its principal's current ledger. */
  predicate Shared(r: Registry) {
    forall key :: key in r.sessions ==> HoldsCurrent(r, key)
  }

  /** The sweep drops a ledger but keeps one of its sessions. */
  predicate Splits(r: Registry, now: int) {
    exists key :: key in r.sessions && r.sessions[key].lastActive >= now - IDLE_MS
                  && r.sessions[key].principal in r.ledgers && r.ledgers[r.sessions[key].principal].lastActive < now - IDLE_MS
  }

  /** A sweep keeps the sharing exactly when it splits no session from its ledger. */
  lemma SweepSharesExactly(r: Registry, now: int)
    requires Shared(r)
    ensures Shared(Sweep(r, now)) <==> !Splits(r, now)
  {
    var t := Sweep(r, now);
    if Splits(r, now) {
      var key :| key in r.sessions && r.sessions[key].lastActive >= now - IDLE_MS
                 && r.sessions[key].principal in r.ledgers && r.ledgers[r.sessions[key].principal].lastActive < now - IDLE_MS;
      assert key in t.sessions && !HoldsCurrent(t, key);
    } else {
      forall key | key in t.sessions ensures HoldsCurrent(t, key) { assert HoldsCurrent(r, key); }
    }
  }

  predicate NeverSplits(r: Registry, ops: seq<Op>)
    decreases |ops|
  {
    ops == [] || (!(ops[0].SweepOp? && Splits(r, ops[0].now)) && NeverSplits(Step(r, ops[0]), ops[1..]))
  }

  lemma SharedStep(r: Registry, op: Op)
    requires Shared(r) && Enabled(r, op) && !(op.SweepOp? && Splits(r, op.now))
    ensures Shared(Step(r, op))
  {
    if op.SweepOp? { SweepSharesExactly(r, op.now); }
    else {
      var t := Step(r, op);
      forall key | key in t.sessions ensures HoldsCurrent(t, key) {
        if key in r.sessions { assert HoldsCurrent(r, key); }
      }
    }
  }

  /** Over every run whose sweeps split nothing, all live sessions of one user and
      client hold one ledger: what one of them read licenses the others. */
  lemma {:induction false} OneLedgerEach(r: Registry, ops: seq<Op>, t: Registry, a: string, b: string)
    requires Shared(r) && Run(r, ops, t) && NeverSplits(r, ops)
    requires a in t.sessions && b in t.sessions && t.sessions[a].principal == t.sessions[b].principal
    ensures t.sessions[a].ledger == t.sessions[b].ledger
    decreases |ops|
  {
    if ops == [] {
      assert HoldsCurrent(t, a) && HoldsCurrent(t, b);
    } else {
      SharedStep(r, ops[0]);
      OneLedgerEach(Step(r, ops[0]), ops[1..], t, a, b);
    }
  }

  // ------------------------------------ when two sessions hold different ledgers

  /** Identities are given out once. */
  predicate Inv(r: Registry) {
    && (forall key :: key in r.sessions ==> r.sessions[key].ledger < r.drawn)
    && (forall p :: p in r.ledgers ==> r.ledgers[p].id < r.drawn)
  }

  lemma {:induction false} InvRun(r: Registry, ops: seq<Op>, t: Registry)
    requires Inv(r) && Run(r, ops, t)
    ensures Inv(t)
    decreases |ops|
  {
    if ops != [] { InvRun(Step(r, ops[0]), ops[1..], t); }
  }

  /** The session is live all through the run. */
  predicate Lives(r: Registry, ops: seq<Op>, key: string)
    decreases |ops|
  {
    key in r.sessions && (ops == [] || Lives(Step(r, ops[0]), ops[1..], key))
  }

  /** No sweep of the run drops the principal's ledger. */
  predicate LedgerStays(r: Registry, ops: seq<Op>, principal: string)
    decreases |ops|
  {
    principal in r.ledgers && (ops == [] || LedgerStays(Step(r, ops[0]), ops[1..], principal))
  }

  lemma {:induction false} LedgerOfSession(r: Registry, ops: seq<Op>, t: Registry, key: string)
    requires Run(r, ops, t) && Lives(r, ops, key)
    ensures key in t.sessions && t.sessions[key].ledger == r.sessions[key].ledger && t.sessions[key].principal == r.sessions[key].principal
    decreases |ops|
  {
    if ops != [] { LedgerOfSession(Step(r, ops[0]), ops[1..], t, key); }
  }

  /** A ledger once dropped is followed only by ones with later identities. */
  lemma {:induction false} DroppedForGood(r: Registry, ops: seq<Op>, t: Registry, principal: string, bound: nat)
    requires Run(r, ops, t) && bound <= r.drawn && (principal in r.ledgers ==> r.ledgers[principal].id >= bound)
    ensures bound <= t.drawn && (principal in t.ledgers ==> t.ledgers[principal].id >= bound)
    decreases |ops|
  {
    if ops != [] { DroppedForGood(Step(r, ops[0]), ops[1..], t, principal, bound); }
  }

  lemma {:induction false} CurrentExactly(r: Registry, ops: seq<Op>, t: Registry, principal: string, id: nat)
    requires Inv(r) && Run(r, ops, t) && principal in r.ledgers && r.ledgers[principal].id == id
    ensures (principal in t.ledgers && t.ledgers[principal].id == id) <==> LedgerStays(r, ops, principal)
    decreases |ops|
  {
    if ops != [] {
      var mid := Step(r, ops[0]);
      InvRun(r, [ops[0]], mid) by { assert [ops[0]][1..] == []; }
      if principal in mid.ledgers {
        CurrentExactly(mid, ops[1..], t, principal, id);
      } else {
        DroppedForGood(mid, ops[1..], t, principal, mid.drawn);
      }
    }
  }

  /** Over every run: a session made for a client after another one that is still live
      holds the same ledger exactly when no sweep dropped the client's ledger between
      the calls that made the two, and that never changes while both live. */
  lemma DifferentLedgersExactly(before: seq<Op>, r: Registry, a: string, at: int, between: seq<Op>, s: Registry, b: string, now: int, later: seq<Op>, t: Registry, principal: string)
    requires Run(EMPTY, before, r) && a !in r.sessions
    requires var made := Step(r, GetOp(a, principal, at)); Run(made, between, s) && Lives(made, between, a)
    requires b !in s.sessions && Run(Step(s, GetOp(b, principal, now)), later, t)
    requires Lives(Step(s, GetOp(b, principal, now)), later, a) && Lives(Step(s, GetOp(b, principal, now)), later, b)
    ensures a in t.sessions && b in t.sessions
    ensures t.sessions[a].ledger == t.sessions[b].ledger <==> LedgerStays(Step(r, GetOp(a, principal, at)), between, principal)
  {
    var made, both := Step(r, GetOp(a, principal, at)), Step(s, GetOp(b, principal, now));
    InvRun(EMPTY, before, r);
    InvRun(r, [GetOp(a, principal, at)], made) by { assert [GetOp(a, principal, at)][1..] == []; }
    InvRun(made, between, s);
    LedgerOfSession(made, between, s, a);
    CurrentExactly(made, between, s, principal, made.sessions[a].ledger);
    assert s.sessions[a].ledger < s.drawn;
    LedgerOfSession(both, later, t, a);
    LedgerOfSession(both, later, t, b);
  }

  /** The split happens: a call counted after its lookup keeps the session alive
      longer than the ledger, and the next transport is given another ledger. */
  lemma LateCallSplits(p: string, later: nat)
    requires 0 < later
    ensures exists t :: && Run(EMPTY, [GetOp("a", p, 0), CallOp("a", later), SweepOp(later + IDLE_MS), GetOp("b", p, later + IDLE_MS)], t)
                        && "a" in t.sessions && "b" in t.sessions && t.sessions["a"].principal == t.sessions["b"].principal
                        && t.sessions["a"].ledger != t.sessions["b"].ledger
  {
    var ops := [GetOp("a", p, 0), CallOp("a", later), SweepOp(later + IDLE_MS), GetOp("b", p, later + IDLE_MS)];
    var s1 := Step(EMPTY, ops[0]);
    var s2 := Step(s1, ops[1]);
    var s3 := Step(s2, ops[2]);
    var t := Step(s3, ops[3]);
    assert s3.ledgers == map[] && "a" in s3.sessions;
    assert ops[1..][1..][1..] == [ops[3]] && [ops[3]][1..] == [];
    assert Run(s3, [ops[3]], t);
    assert Run(s2, ops[2..], t) by { assert ops[2..][1..] == [ops[3]]; }
    assert Run(s1, ops[1..], t) by { assert ops[1..][1..] == ops[2..]; }
    assert Run(EMPTY, ops, t);
  }

  // ------------------------------------------- who is still known, by the calls

  /** When a session was last heard of, unless it was dropped, or idle for six hours at
      a sweep, since. A counted call only keeps alive what is there. */
  function LastHeard(ops: seq<Op>, key: string): Option<int> {
    if ops == [] then None
    else
      var before := LastHeard(ops[..|ops| - 1], key);
      match ops[|ops| - 1]
      case GetOp(k, _, now) => if k == key then Some(now) else before
      case CallOp(k, now) => if k == key && before.Some? then Some(now) else before
      case DropOp(k) => if k == key then None else before
      case SweepOp(now) => if before.Some? && now - before.value > 21600000 then None else before
  }

  /** When a ledger was last looked up, unless it was idle for six hours at a sweep. */
  function LastUsed(ops: seq<Op>, principal: string): Option<int> {
    if ops == [] then None
    else
      var before := LastUsed(ops[..|ops| - 1], principal);
      match ops[|ops| - 1]
      case GetOp(_, p, now) => if p == principal then Some(now) else before
      case SweepOp(now) => if before.Some? && now - before.value > 21600000 then None else before
      case _ => before
  }

  predicate HeardAsTold(r: Registry, ops: seq<Op>, key: string) {
    if key in r.sessions then LastHeard(ops, key) == Some(r.sessions[key].lastActive) else LastHeard(ops, key).None?
  }

  predicate UsedAsTold(r: Registry, ops: seq<Op>, principal: string) {
    if principal in r.ledgers then LastUsed(ops, principal) == Some(r.ledgers[principal].lastActive) else LastUsed(ops, principal).None?
  }

  lemma {:induction false} ToldRun(told: seq<Op>, r: Registry, ops: seq<Op>, t: Registry, key: string, principal: string)
    requires HeardAsTold(r, told, key) && UsedAsTold(r, told, principal) && Run(r, ops, t)
    ensures HeardAsTold(t, told + ops, key) && UsedAsTold(t, told + ops, principal)
    decreases |ops|
  {
    if ops == [] {
      assert told + ops == told;
    } else {
      assert (told + [ops[0]])[..|told|] == told;
      ToldRun(told + [ops[0]], Step(r, ops[0]), ops[1..], t, key, principal);
      assert told + [ops[0]] + ops[1..] == told + ops;
    }
  }

  /** In every run exactly those sessions and ledgers are known that were called for and
      neither dropped nor idle at a sweep since, each with the time of its last call. */
  lemma KnownExactly(ops: seq<Op>, t: Registry, key: string, principal: string)
    requires Run(EMPTY, ops, t)
    ensures HeardAsTold(t, ops, key) && UsedAsTold(t, ops, principal)
  {
    ToldRun([], EMPTY, ops, t, key, principal);
    assert [] + ops == ops;
  }
}
