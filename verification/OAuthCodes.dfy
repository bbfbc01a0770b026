/** Authorization requests, the codes they are approved into, and the grants the
    codes are exchanged for. Digests are modelled by what they cover. */
module OAuthCodes {
  import opened Base

  datatype Challenge = S256(verifier: string) | Unmatched(text: string)
  datatype CodeHash = CodeHash(codeId: string, secret: string)

  datatype Request = Request(
    id: string, clientId: string, redirectUri: string, challenge: Challenge, resource: string,
    userId: string, tenantId: string, fixedConnection: Option<string>, eligible: seq<string>, scopes: seq<string>,
    csrfHash: string, createdAt: int, expiresAt: int, usedAt: Option<int>)

  datatype Code = Code(
    id: string, codeHash: CodeHash, clientId: string, redirectUri: string, challenge: Challenge, resource: string,
    userId: string, tenantId: string, connectionId: string, scopes: seq<string>, expiresAt: int, usedAt: Option<int>)

  datatype Grant = Grant(id: string, clientId: string, userId: string, tenantId: string, connectionId: string, resource: string, scopes: seq<string>)

  predicate RequestOver(r: Request, now: int) {
    r.usedAt.Some? || r.expiresAt <= now
  }

  predicate CodeOver(c: Code, now: int) {
    c.usedAt.Some? || c.expiresAt <= now
  }

  function KeepOpenRequests(requests: map<string, Request>, now: int): map<string, Request> {
    map id | id in requests && !RequestOver(requests[id], now) :: requests[id]
  }

  function KeepOpenCodes(codes: map<string, Code>, now: int): map<string, Code> {
    map id | id in codes && !CodeOver(codes[id], now) :: codes[id]
  }

  /** The request can still be decided by the holder of its form token. */
  predicate Decidable(requests: map<string, Request>, id: string, csrfHash: string, now: int) {
    id in requests && !RequestOver(requests[id], now) && requests[id].csrfHash == csrfHash
  }

  predicate Exchangeable(codes: map<string, Code>, hash: CodeHash, now: int) {
    hash.codeId in codes && !CodeOver(codes[hash.codeId], now) && codes[hash.codeId].codeHash == hash
  }

  /** What a code carries over from its request. */
  function CodeFor(r: Request, codeId: string, secret: string, connectionId: string, now: int, ttl: int): Code {
    Code(codeId, CodeHash(codeId, secret), r.clientId, r.redirectUri, r.challenge, r.resource,
         r.userId, r.tenantId, connectionId, r.scopes, now + ttl, None)
  }

  function GrantFor(c: Code, grantId: string): Grant {
    Grant(grantId, c.clientId, c.userId, c.tenantId, c.connectionId, c.resource, c.scopes)
  }

  /** The two JSON documents. An approval edits both, and either write can fail:
      the inner one first, then nothing is stored; the outer one afterwards, then
      only the code is. */
  class CodeStore {
    var requests: map<string, Request>
    var codes: map<string, Code>
    var grants: map<string, Grant>

    constructor ()
      ensures requests == map[] && codes == map[] && grants == map[]
    {
      requests, codes, grants := map[], map[], map[];
    }

    method SaveAuthorization(record: Request)
      modifies this`requests
      ensures requests == KeepOpenRequests(old(requests), record.createdAt)[record.id := record]
    {
      var remaining, kept := requests.Keys, requests;
      while remaining != {}
        invariant remaining <= requests.Keys && requests == old(requests)
        invariant kept == map id | id in requests && (id in remaining || !RequestOver(requests[id], record.createdAt)) :: requests[id]
      {
        var id :| id in remaining;
        if requests[id].expiresAt <= record.createdAt || requests[id].usedAt.Some? {
          kept := kept - {id};
        }
        remaining := remaining - {id};
      }
      requests := kept[record.id := record];
    }

    method MarkAuthorizationUsed(id: string, csrfHash: string, now: int) returns (marked: bool)
      modifies this`requests
      ensures marked <==> Decidable(old(requests), id, csrfHash, now)
      ensures requests == if marked then old(requests)[id := old(requests)[id].(usedAt := Some(now))] else old(requests)
    {
      if id !in requests || requests[id].usedAt.Some? || requests[id].expiresAt <= now || requests[id].csrfHash != csrfHash {
        return false;
      }
      requests := requests[id := requests[id].(usedAt := Some(now))];
      return true;
    }

    method ConsumeAuthorizationAndCreateCode(id: string, csrfHash: string, now: int, code: Code, codeWritten: bool, requestWritten: bool)
      returns (consumed: bool)
      modifies this`requests, this`codes
      ensures consumed <==> Decidable(old(requests), id, csrfHash, now) && codeWritten && requestWritten
      ensures codes == if Decidable(old(requests), id, csrfHash, now) && codeWritten
                       then KeepOpenCodes(old(codes), now)[code.id := code] else old(codes)
      ensures requests == if consumed then old(requests)[id := old(requests)[id].(usedAt := Some(now))] else old(requests)
    {
      if id !in requests || requests[id].usedAt.Some? || requests[id].expiresAt <= now || requests[id].csrfHash != csrfHash {
        return false;
      }
      if !codeWritten { return false; }
      var remaining, kept := codes.Keys, codes;
      while remaining != {}
        invariant remaining <= codes.Keys && codes == old(codes) && requests == old(requests)
        invariant kept == map x | x in codes && (x in remaining || !CodeOver(codes[x], now)) :: codes[x]
      {
        var x :| x in remaining;
        if codes[x].expiresAt <= now || codes[x].usedAt.Some? { kept := kept - {x}; }
        remaining := remaining - {x};
      }
      codes := kept[code.id := code];
      if !requestWritten { return false; }
      requests := requests[id := requests[id].(usedAt := Some(now))];
      return true;
    }

    method ConsumeCodeAndCreateGrant(hash: CodeHash, now: int, grant: Grant) returns (consumed: bool)
      modifies this`codes, this`grants
      ensures consumed <==> Exchangeable(old(codes), hash, now)
      ensures codes == if consumed then old(codes)[hash.codeId := old(codes)[hash.codeId].(usedAt := Some(now))] else old(codes)
      ensures grants == if consumed then old(grants)[grant.id := grant] else old(grants)
    {
      if hash.codeId !in codes || codes[hash.codeId].usedAt.Some? || codes[hash.codeId].expiresAt <= now || codes[hash.codeId].codeHash != hash {
        return false;
      }
      codes := codes[hash.codeId := codes[hash.codeId].(usedAt := Some(now))];
      grants := grants[grant.id := grant];
      return true;
    }
  }

  // ---------------------------------------------------------------- runs

  /** `saved` and `written` are all requests and codes ever stored, `approvals` the
      codes made per request, `exchanges` the grants made per code, `failures` the
      approvals whose request write failed after the code was stored. */
  datatype World = World(
    requests: map<string, Request>, codes: map<string, Code>, grants: map<string, Grant>,
    saved: map<string, Request>, written: map<string, Code>, origin: map<string, string>, source: map<string, string>,
    approvals: seq<(string, string)>, exchanges: seq<(string, string)>, failures: seq<string>)

  const EMPTY := World(map[], map[], map[], map[], map[], map[], map[], [], [], [])

  datatype Op =
    | Save(record: Request)
    | Deny(id: string, csrfHash: string)
    | Approve(seen: Request, chosen: string, codeId: string, secret: string, ttl: int, codeWritten: bool, requestWritten: bool)
    | Exchange(seenCode: Code, hash: CodeHash, clientId: string, redirectUri: string, verifier: string, exchangeResource: string, grantId: string)

  /** The page was built from a stored record, whose fields other than `usedAt`
      never change; ids are random and therefore fresh. */
  predicate Enabled(w: World, op: Op) {
    match op
    case Save(record) => record.id !in w.saved && record.usedAt.None?
    case Deny(_, _) => true
    case Approve(seen, _, codeId, _, _, _, _) =>
      seen.id in w.saved && seen.(usedAt := None) == w.saved[seen.id] && codeId !in w.written
    case Exchange(seenCode, _, _, _, _, _, grantId) =>
      seenCode.id in w.written && seenCode.(usedAt := None) == w.written[seenCode.id] && grantId !in w.source
  }

  /** The connection an approval selects, if the request allows it. */
  function Selected(r: Request, chosen: string): Option<string> {
    var connectionId := if r.fixedConnection.Some? then r.fixedConnection.value else chosen;
    if connectionId in r.eligible then Some(connectionId) else None
  }

  predicate IsVerifierChar(c: char) {
    'A' <= c <= 'Z' || 'a' <= c <= 'z' || '0' <= c <= '9' || c == '.' || c == '_' || c == '~' || c == '-'
  }

  predicate PkceMatches(verifier: string, challenge: Challenge) {
    43 <= |verifier| <= 128 && (forall k :: 0 <= k < |verifier| ==> IsVerifierChar(verifier[k])) && challenge == S256(verifier)
  }

  predicate BindingHolds(op: Op)
    requires op.Exchange?
  {
    && op.seenCode.id == op.hash.codeId && op.seenCode.codeHash == op.hash
    && op.seenCode.clientId == op.clientId && op.seenCode.redirectUri == op.redirectUri
    && op.seenCode.resource == op.exchangeResource && PkceMatches(op.verifier, op.seenCode.challenge)
  }

  function ApproveStep(w: World, op: Op, now: int): World
    requires op.Approve?
  {
    var id := op.seen.id;
    var connection := Selected(op.seen, op.chosen);
    if connection.None? || !Decidable(w.requests, id, op.seen.csrfHash, now) || !op.codeWritten then w
    else
      var code := CodeFor(op.seen, op.codeId, op.secret, connection.value, now, op.ttl);
      var w1 := w.(codes := KeepOpenCodes(w.codes, now)[code.id := code], written := w.written[code.id := code],
                   origin := w.origin[code.id := id], approvals := w.approvals + [(id, code.id)]);
      if op.requestWritten then w1.(requests := w.requests[id := w.requests[id].(usedAt := Some(now))])
      else w1.(failures := w.failures + [id])
  }

  function ExchangeStep(w: World, op: Op, now: int): World
    requires op.Exchange?
  {
    if !BindingHolds(op) || !Exchangeable(w.codes, op.hash, now) then w
    else
      var grant := GrantFor(op.seenCode, op.grantId);
      w.(codes := w.codes[op.hash.codeId := w.codes[op.hash.codeId].(usedAt := Some(now))],
         grants := w.grants[grant.id := grant], source := w.source[grant.id := op.hash.codeId],
         exchanges := w.exchanges + [(op.hash.codeId, grant.id)])
  }

  function Step(w: World, op: Op, now: int): World {
    match op
    case Save(record) =>
      w.(requests := KeepOpenRequests(w.requests, record.createdAt)[record.id := record], saved := w.saved[record.id := record])
    case Deny(id, csrfHash) =>
      if Decidable(w.requests, id, csrfHash, now)
      then w.(requests := w.requests[id := w.requests[id].(usedAt := Some(now))]) else w
    case Approve(_, _, _, _, _, _, _) => ApproveStep(w, op, now)
    case Exchange(_, _, _, _, _, _, _) => ExchangeStep(w, op, now)
  }

  ghost predicate Run(w: World, ops: seq<(Op, int)>, v: World)
    decreases |ops|
  {
    if ops == [] then w == v
    else Enabled(w, ops[0].0) && Run(Step(w, ops[0].0, ops[0].1), ops[1..], v)
  }

  function CountFirst(log: seq<(string, string)>, id: string): nat {
    if log == [] then 0 else CountFirst(log[..|log| - 1], id) + if log[|log| - 1].0 == id then 1 else 0
  }

  function CountIn(log: seq<string>, id: string): nat {
    if log == [] then 0 else CountIn(log[..|log| - 1], id) + if log[|log| - 1] == id then 1 else 0
  }

  // ----------------------------------------------------------- invariant

  /** While a request is stored and unused, every code made for it is from an
      approval that failed half-way. */
  predicate ApprovalsInv(w: World, id: string) {
    var made, failed := CountFirst(w.approvals, id), CountIn(w.failures, id);
    && failed <= made <= 1 + failed
    && (id in w.requests && w.requests[id].usedAt.None? ==> made == failed)
    && (id !in w.saved ==> made == 0)
  }

  predicate ExchangesInv(w: World, id: string) {
    CountFirst(w.exchanges, id) + (if id in w.codes && w.codes[id].usedAt.None? then 1 else 0) <= 1
    && (id !in w.written ==> CountFirst(w.exchanges, id) == 0)
  }

  predicate CodeTraced(c: Code, r: Request) {
    && c.clientId == r.clientId && c.userId == r.userId && c.tenantId == r.tenantId && c.resource == r.resource
    && c.scopes == r.scopes && c.challenge == r.challenge && c.redirectUri == r.redirectUri
    && c.connectionId in r.eligible && (r.fixedConnection.Some? ==> c.connectionId == r.fixedConnection.value)
  }

  predicate RequestsTraced(w: World) {
    forall id :: id in w.requests ==> id in w.saved && w.requests[id].(usedAt := None) == w.saved[id]
  }

  predicate CodesTraced(w: World) {
    forall id :: id in w.codes ==> id in w.written && w.codes[id].(usedAt := None) == w.written[id]
  }

  predicate OriginsTraced(w: World) {
    forall id :: id in w.written ==> id in w.origin && w.origin[id] in w.saved && CodeTraced(w.written[id], w.saved[w.origin[id]])
  }

  predicate GrantsTraced(w: World) {
    forall id :: id in w.grants ==> id in w.source && w.source[id] in w.written && w.grants[id] == GrantFor(w.written[w.source[id]], id)
  }

  predicate Tracing(w: World) {
    RequestsTraced(w) && CodesTraced(w) && OriginsTraced(w) && GrantsTraced(w)
  }

  lemma ApprovedCodeIsTraced(w: World, op: Op, now: int)
    requires Tracing(w) && Enabled(w, op) && op.Approve? && Selected(op.seen, op.chosen).Some?
    ensures CodeTraced(CodeFor(op.seen, op.codeId, op.secret, Selected(op.seen, op.chosen).value, now, op.ttl), w.saved[op.seen.id])
  {
    assert op.seen.(usedAt := None) == w.saved[op.seen.id];
  }

  /** Storing a traced code under a fresh id. */
  lemma TracingAfterCode(w: World, code: Code, id: string, now: int, approvals: seq<(string, string)>, failures: seq<string>)
    requires Tracing(w) && code.id !in w.written && code.usedAt.None? && id in w.saved && CodeTraced(code, w.saved[id])
    ensures Tracing(w.(codes := KeepOpenCodes(w.codes, now)[code.id := code], written := w.written[code.id := code],
                       origin := w.origin[code.id := id], approvals := approvals, failures := failures))
  {
  }

  lemma TracingAfterUse(w: World, id: string, now: int)
    requires Tracing(w) && id in w.requests
    ensures Tracing(w.(requests := w.requests[id := w.requests[id].(usedAt := Some(now))]))
  {
  }

  lemma TracingApprove(w: World, op: Op, now: int)
    requires Tracing(w) && Enabled(w, op) && op.Approve?
    ensures Tracing(ApproveStep(w, op, now))
  {
    var connection := Selected(op.seen, op.chosen);
    if connection.Some? && Decidable(w.requests, op.seen.id, op.seen.csrfHash, now) && op.codeWritten {
      var code := CodeFor(op.seen, op.codeId, op.secret, connection.value, now, op.ttl);
      ApprovedCodeIsTraced(w, op, now);
      var approvals := w.approvals + [(op.seen.id, code.id)];
      if op.requestWritten {
        TracingAfterUse(w, op.seen.id, now);
        TracingAfterCode(w.(requests := w.requests[op.seen.id := w.requests[op.seen.id].(usedAt := Some(now))]),
                         code, op.seen.id, now, approvals, w.failures);
      } else {
        TracingAfterCode(w, code, op.seen.id, now, approvals, w.failures + [op.seen.id]);
      }
    }
  }

  lemma TracingExchange(w: World, op: Op, now: int)
    requires Tracing(w) && Enabled(w, op) && op.Exchange?
    ensures Tracing(ExchangeStep(w, op, now))
  {
    assert op.seenCode.(usedAt := None) == w.written[op.seenCode.id];
  }

  lemma TracingSave(w: World, op: Op, now: int)
    requires Tracing(w) && Enabled(w, op) && op.Save?
    ensures Tracing(Step(w, op, now))
  {
  }

  lemma TracingDeny(w: World, op: Op, now: int)
    requires Tracing(w) && Enabled(w, op) && op.Deny?
    ensures Tracing(Step(w, op, now))
  {
  }

  lemma TracingStep(w: World, op: Op, now: int)
    requires Tracing(w) && Enabled(w, op)
    ensures Tracing(Step(w, op, now))
  {
    match op {
      case Save(_) => TracingSave(w, op, now);
      case Deny(_, _) => TracingDeny(w, op, now);
      case Approve(_, _, _, _, _, _, _) => TracingApprove(w, op, now);
      case Exchange(_, _, _, _, _, _, _) => TracingExchange(w, op, now);
    }
  }

  lemma CountLast(log: seq<(string, string)>, entry: (string, string), failures: seq<string>, id: string)
    ensures CountFirst(log + [entry], id) == CountFirst(log, id) + if entry.0 == id then 1 else 0
    ensures CountIn(failures + [entry.0], id) == CountIn(failures, id) + if entry.0 == id then 1 else 0
  {
    assert (log + [entry])[..|log|] == log && (failures + [entry.0])[..|failures|] == failures;
  }

  lemma CountsApprove(w: World, op: Op, now: int, id: string)
    requires Tracing(w) && Enabled(w, op) && op.Approve? && ApprovalsInv(w, id) && ExchangesInv(w, id)
    ensures ApprovalsInv(ApproveStep(w, op, now), id)
  {
    CountLast(w.approvals, (op.seen.id, op.codeId), w.failures, id);
  }

  lemma CodesApprove(w: World, op: Op, now: int, id: string)
    requires Tracing(w) && Enabled(w, op) && op.Approve? && ExchangesInv(w, id)
    ensures ExchangesInv(ApproveStep(w, op, now), id)
  {
  }

  lemma CountsExchange(w: World, op: Op, now: int, id: string)
    requires Tracing(w) && Enabled(w, op) && op.Exchange? && ApprovalsInv(w, id) && ExchangesInv(w, id)
    ensures ApprovalsInv(ExchangeStep(w, op, now), id) && ExchangesInv(ExchangeStep(w, op, now), id)
  {
    CountLast(w.exchanges, (op.hash.codeId, op.grantId), w.failures, id);
  }

  lemma CountsStep(w: World, op: Op, now: int, id: string)
    requires Tracing(w) && Enabled(w, op) && ApprovalsInv(w, id) && ExchangesInv(w, id)
    ensures ApprovalsInv(Step(w, op, now), id) && ExchangesInv(Step(w, op, now), id)
  {
    match op {
      case Save(_) =>
      case Deny(_, _) =>
      case Approve(_, _, _, _, _, _, _) =>
        CountsApprove(w, op, now, id);
        CodesApprove(w, op, now, id);
      case Exchange(_, _, _, _, _, _, _) => CountsExchange(w, op, now, id);
    }
  }

  lemma {:induction false} RunCounts(w: World, ops: seq<(Op, int)>, v: World, id: string)
    requires Run(w, ops, v) && Tracing(w) && ApprovalsInv(w, id) && ExchangesInv(w, id)
    ensures Tracing(v) && ApprovalsInv(v, id) && ExchangesInv(v, id)
    decreases |ops|
  {
    if ops != [] {
      TracingStep(w, ops[0].0, ops[0].1);
      CountsStep(w, ops[0].0, ops[0].1, id);
      RunCounts(Step(w, ops[0].0, ops[0].1), ops[1..], v, id);
    }
  }

  /** Every code is exchanged at most once, and every request yields one code for each
      approval whose own write failed half-way, plus at most one. */
  lemma AtMostOneEach(ops: seq<(Op, int)>, w: World, id: string)
    requires Run(EMPTY, ops, w)
    ensures CountFirst(w.exchanges, id) <= 1
    ensures CountIn(w.failures, id) <= CountFirst(w.approvals, id) <= 1 + CountIn(w.failures, id)
  {
    RunCounts(EMPTY, ops, w, id);
  }

  lemma {:induction false} CountedIn(log: seq<string>, id: string)
    ensures CountIn(log, id) > 0 <==> id in log
  {
    if log != [] {
      CountedIn(log[..|log| - 1], id);
      assert log == log[..|log| - 1] + [log[|log| - 1]];
    }
  }

  /** In every run, an approval that can go through makes the request's first code
      exactly when no earlier approval of that request failed half-way; otherwise it
      makes another one beside those. */
  lemma SecondCodeExactly(ops: seq<(Op, int)>, w: World, op: Op, now: int)
    requires Run(EMPTY, ops, w) && Enabled(w, op) && op.Approve? && op.codeWritten
    requires Selected(op.seen, op.chosen).Some? && Decidable(w.requests, op.seen.id, op.seen.csrfHash, now)
    ensures var made := CountFirst(Step(w, op, now).approvals, op.seen.id);
            made == 1 + CountIn(w.failures, op.seen.id) && (made <= 1 <==> op.seen.id !in w.failures)
  {
    RunCounts(EMPTY, ops, w, op.seen.id);
    CountLast(w.approvals, (op.seen.id, op.codeId), w.failures, op.seen.id);
    CountedIn(w.failures, op.seen.id);
  }

  /** Every grant carries the client, user, tenant, resource and scopes of the
      request it traces back to, and a connection that request allowed. */
  lemma GrantsTraceBack(ops: seq<(Op, int)>, w: World, grantId: string)
    requires Run(EMPTY, ops, w) && grantId in w.grants
    ensures grantId in w.source && w.source[grantId] in w.origin && w.origin[w.source[grantId]] in w.saved
    ensures var g, r := w.grants[grantId], w.saved[w.origin[w.source[grantId]]];
            && g.clientId == r.clientId && g.userId == r.userId && g.tenantId == r.tenantId
            && g.resource == r.resource && g.scopes == r.scopes
            && g.connectionId in r.eligible && (r.fixedConnection.Some? ==> g.connectionId == r.fixedConnection.value)
  {
    RunCounts(EMPTY, ops, w, grantId);
  }

  /** A grant is made only for the client that started the request and only to
      whoever knows the verifier behind its challenge. */
  lemma ExchangeNeedsVerifier(ops: seq<(Op, int)>, w: World, op: Op, now: int)
    requires Run(EMPTY, ops, w) && op.Exchange? && Enabled(w, op)
    requires Step(w, op, now).grants != w.grants
    ensures op.hash.codeId in w.origin && w.origin[op.hash.codeId] in w.saved
    ensures var r := w.saved[w.origin[op.hash.codeId]];
            r.challenge == S256(op.verifier) && r.clientId == op.clientId && r.redirectUri == op.redirectUri && r.resource == op.exchangeResource
  {
    RunCounts(EMPTY, ops, w, op.grantId);
  }

  // --------------------------------------------- the half-way failure is real

  const REQUEST := Request("request", "client", "https://client/", S256("verifier"), "resource",
                           "user", "tenant", None, ["connection"], [], "csrf", 0, 600, None)

  /** An approval whose own write succeeds or not. */
  function Approval(codeId: string, requestWritten: bool): Op {
    Approve(REQUEST, "connection", codeId, "secret", 60, true, requestWritten)
  }

  function CodeOf(codeId: string): Code {
    CodeFor(REQUEST, codeId, "secret", "connection", 1, 60)
  }

  predicate StillOpen(w: World, approvals: nat) {
    && "request" in w.saved && w.saved["request"] == REQUEST
    && "request" in w.requests && w.requests["request"] == REQUEST
    && |w.approvals| == approvals
  }

  lemma SavedOpen()
    ensures var w := Step(EMPTY, Save(REQUEST), 0); StillOpen(w, 0) && w.codes == map[] && w.written == map[]
  {
  }

  lemma ApprovedOnce(w: World, codeId: string, requestWritten: bool)
    requires StillOpen(w, |w.approvals|) && codeId !in w.written
    ensures var v := Step(w, Approval(codeId, requestWritten), 1);
            && Enabled(w, Approval(codeId, requestWritten))
            && v.approvals == w.approvals + [("request", codeId)]
            && v.codes == KeepOpenCodes(w.codes, 1)[codeId := CodeOf(codeId)] && v.written == w.written[codeId := CodeOf(codeId)]
            && (!requestWritten ==> StillOpen(v, |v.approvals|))
  {
    assert Selected(REQUEST, "connection") == Some("connection");
    assert Decidable(w.requests, "request", "csrf", 1);
  }

  lemma RunOfThree(a: (Op, int), b: (Op, int), c: (Op, int)) returns (ops: seq<(Op, int)>, w: World)
    requires Enabled(EMPTY, a.0) && Enabled(Step(EMPTY, a.0, a.1), b.0)
    requires Enabled(Step(Step(EMPTY, a.0, a.1), b.0, b.1), c.0)
    ensures Run(EMPTY, ops, w) && w == Step(Step(Step(EMPTY, a.0, a.1), b.0, b.1), c.0, c.1)
  {
    var w1 := Step(EMPTY, a.0, a.1);
    var w2 := Step(w1, b.0, b.1);
    w := Step(w2, c.0, c.1);
    ops := [a, b, c];
    assert ops[1..] == [b, c] && ops[1..][1..] == [c];
    assert Run(w2, ops[1..][1..], w) && Run(w1, ops[1..], w);
  }

  lemma TwoCounted(log: seq<(string, string)>, id: string)
    requires |log| == 2 && log[0].0 == id && log[1].0 == id
    ensures CountFirst(log, id) == 2
  {
    assert log[..1][..0] == [];
    assert CountFirst(log[..1], id) == 1;
  }

  lemma BothExchangeable(codes: map<string, Code>)
    requires codes == KeepOpenCodes(KeepOpenCodes(map[], 1)["one" := CodeOf("one")], 1)["two" := CodeOf("two")]
    ensures Exchangeable(codes, CodeHash("one", "secret"), 2) && Exchangeable(codes, CodeHash("two", "secret"), 2)
  {
    assert "one"[0] != "two"[0];
    assert !CodeOver(CodeOf("one"), 1);
  }

  /** A run in which one request yields two codes, both of which can be exchanged. */
  lemma HalfWrittenApproval()
    ensures exists ops, w :: Run(EMPTY, ops, w) && CountFirst(w.approvals, "request") == 2
                             && Exchangeable(w.codes, CodeHash("one", "secret"), 2) && Exchangeable(w.codes, CodeHash("two", "secret"), 2)
  {
    SavedOpen();
    var w1 := Step(EMPTY, Save(REQUEST), 0);
    ApprovedOnce(w1, "one", false);
    assert "one"[0] != "two"[0];
    ApprovedOnce(Step(w1, Approval("one", false), 1), "two", true);
    var ops, w := RunOfThree((Save(REQUEST), 0), (Approval("one", false), 1), (Approval("two", true), 1));
    TwoCounted(w.approvals, "request");
    BothExchangeable(w.codes);
  }
}
