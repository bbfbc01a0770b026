/** When a request can still be decided and a code still be exchanged, and what the
    grant then says, by what was asked, approved, denied and exchanged before. */
module OAuthCodeStories {
  import opened Base
  import opened OAuthCodes

  /** One code: the request it was approved for, the connection chosen, its secret,
      when it was made and how long it lives. */
  datatype Approval = Approval(requestId: string, connectionId: string, secret: string, at: int, ttl: int)

  /** The stores, and what their callers did: requests saved, those denied or approved
      to the end, those out of date when a later one was saved; codes made, exchanged,
      and out of date when a later one was made; and the code behind every grant. */
  datatype Story = Story(
    w: World, saved: map<string, Request>, closed: set<string>, overdue: set<string>,
    approved: map<string, Approval>, spent: set<string>, stale: set<string>, redeemed: map<string, string>)

  const BEGINNING := Story(EMPTY, map[], {}, {}, map[], {}, {}, map[])

  /** The request waits for a decision by the holder of its form token. */
  predicate Waits(h: Story, id: string, csrfHash: string, now: int) {
    && id in h.saved && id !in h.closed && id !in h.overdue
    && csrfHash == h.saved[id].csrfHash && now < h.saved[id].expiresAt
  }

  /** The connection of the request, or else the one chosen, has to be eligible. */
  predicate Allowed(r: Request, chosen: string, connectionId: string) {
    && connectionId in r.eligible
    && (if r.fixedConnection.Some? then r.fixedConnection.value == connectionId else chosen == connectionId)
  }

  function ConnectionOf(r: Request, chosen: string): string {
    if r.fixedConnection.Some? then r.fixedConnection.value else chosen
  }

  predicate Approves(h: Story, op: Op, now: int) {
    && op.Approve? && op.codeWritten && Waits(h, op.seen.id, op.seen.csrfHash, now)
    && Allowed(h.saved[op.seen.id], op.chosen, ConnectionOf(h.saved[op.seen.id], op.chosen))
  }

  /** The presented code is one that was made, in time and for the first time, by the
      client it was made for, who knows the verifier behind the challenge. */
  predicate Redeems(h: Story, op: Op, now: int) {
    && op.Exchange? && op.seenCode.id == op.hash.codeId
    && var id := op.hash.codeId;
    && id in h.approved && id !in h.spent && id !in h.stale
    && op.hash.secret == h.approved[id].secret && now < h.approved[id].at + h.approved[id].ttl
    && h.approved[id].requestId in h.saved
    && var r := h.saved[h.approved[id].requestId];
    && op.clientId == r.clientId && op.redirectUri == r.redirectUri && op.exchangeResource == r.resource
    && r.challenge == S256(op.verifier) && 43 <= |op.verifier| <= 128
    && forall k :: 0 <= k < |op.verifier| ==> IsVerifierChar(op.verifier[k])
  }

  function Next(h: Story, op: Op, now: int): Story {
    var t := h.(w := Step(h.w, op, now));
    match op
    case Save(record) =>
      t.(saved := h.saved[record.id := record],
         overdue := h.overdue + (set id | id in h.saved && h.saved[id].expiresAt <= record.createdAt))
    case Deny(id, csrfHash) => if Waits(h, id, csrfHash, now) then t.(closed := h.closed + {id}) else t
    case Approve(seen, chosen, codeId, secret, ttl, _, requestWritten) =>
      if !Approves(h, op, now) then t
      else
        var made := Approval(seen.id, ConnectionOf(h.saved[seen.id], chosen), secret, now, ttl);
        t.(approved := h.approved[codeId := made],
           stale := h.stale + (set id | id in h.approved && h.approved[id].at + h.approved[id].ttl <= now),
           closed := if requestWritten then h.closed + {seen.id} else h.closed)
    case Exchange(_, hash, _, _, _, _, grantId) =>
      if !Redeems(h, op, now) then t else t.(spent := h.spent + {hash.codeId}, redeemed := h.redeemed[grantId := hash.codeId])
  }

  ghost predicate Tale(h: Story, ops: seq<(Op, int)>, t: Story)
    decreases |ops|
  {
    if ops == [] then h == t else Enabled(h.w, ops[0].0) && Tale(Next(h, ops[0].0, ops[0].1), ops[1..], t)
  }

  // -------------------------------------------------- the stores, as told

  function CodeAsTold(h: Story, id: string): Code
    requires id in h.approved && h.approved[id].requestId in h.saved
  {
    var made := h.approved[id];
    var r := h.saved[made.requestId];
    Code(id, CodeHash(id, made.secret), r.clientId, r.redirectUri, r.challenge, r.resource, r.userId, r.tenantId,
         made.connectionId, r.scopes, made.at + made.ttl, None)
  }

  predicate RequestsTold(h: Story) {
    && h.w.saved == h.saved && h.closed <= h.saved.Keys && h.overdue <= h.saved.Keys
    && (forall id :: id in h.saved ==> h.saved[id].id == id && h.saved[id].usedAt.None?)
    && (forall id :: id in h.w.requests ==>
          id in h.saved && id !in h.overdue && h.w.requests[id].(usedAt := None) == h.saved[id]
          && (h.w.requests[id].usedAt.Some? <==> id in h.closed))
    && (forall id :: id in h.saved && id !in h.closed && id !in h.overdue ==> id in h.w.requests)
  }

  predicate CodeTold(h: Story, id: string) {
    && (id in h.approved <==> id in h.w.written) && (id in h.spent || id in h.stale ==> id in h.approved)
    && (id in h.approved ==> h.approved[id].requestId in h.saved && h.w.written[id] == CodeAsTold(h, id))
    && (id in h.w.codes ==>
          id in h.approved && id !in h.stale && h.w.codes[id].(usedAt := None) == CodeAsTold(h, id)
          && (h.w.codes[id].usedAt.Some? <==> id in h.spent))
    && (id in h.approved && id !in h.spent && id !in h.stale ==> id in h.w.codes)
  }

  ghost predicate CodesTold(h: Story) {
    forall id :: CodeTold(h, id)
  }

  predicate OneEach(redeemed: map<string, string>) {
    forall a, b :: a in redeemed && b in redeemed && redeemed[a] == redeemed[b] ==> a == b
  }

  predicate GrantsTold(h: Story) {
    && h.w.grants.Keys == h.redeemed.Keys && h.w.source == h.redeemed
    && (forall g :: g in h.redeemed ==>
          h.redeemed[g] in h.approved && h.redeemed[g] in h.spent && h.approved[h.redeemed[g]].requestId in h.saved
          && h.w.grants[g] == GrantAsTold(h, g))
    && OneEach(h.redeemed)
  }

  function GrantAsTold(h: Story, g: string): Grant
    requires g in h.redeemed && h.redeemed[g] in h.approved && h.approved[h.redeemed[g]].requestId in h.saved
  {
    var made := h.approved[h.redeemed[g]];
    var r := h.saved[made.requestId];
    Grant(g, r.clientId, r.userId, r.tenantId, made.connectionId, r.resource, r.scopes)
  }

  ghost predicate Told(h: Story) {
    RequestsTold(h) && CodesTold(h) && GrantsTold(h)
  }

  // -------------------------------------------------------------- the proof

  lemma WaitsIsDecidable(h: Story, id: string, csrfHash: string, now: int)
    requires RequestsTold(h)
    ensures Waits(h, id, csrfHash, now) <==> Decidable(h.w.requests, id, csrfHash, now)
  {
    if id in h.w.requests { assert h.w.requests[id].(usedAt := None) == h.saved[id]; }
  }

  lemma RedeemsIsExchangeable(h: Story, op: Op, now: int)
    requires Told(h) && op.Exchange? && Enabled(h.w, op)
    ensures Redeems(h, op, now) <==> BindingHolds(op) && Exchangeable(h.w.codes, op.hash, now)
  {
    assert CodeTold(h, op.hash.codeId);
    if op.seenCode.id == op.hash.codeId {
      assert op.seenCode.(usedAt := None) == CodeAsTold(h, op.hash.codeId);
      if op.hash.codeId in h.w.codes { assert h.w.codes[op.hash.codeId].(usedAt := None) == CodeAsTold(h, op.hash.codeId); }
    }
  }

  lemma ApprovesGoesThrough(h: Story, op: Op, now: int)
    requires Told(h) && op.Approve? && Enabled(h.w, op)
    ensures Approves(h, op, now)
       <==> Selected(op.seen, op.chosen).Some? && Decidable(h.w.requests, op.seen.id, op.seen.csrfHash, now) && op.codeWritten
    ensures Approves(h, op, now) ==>
      && Selected(op.seen, op.chosen) == Some(ConnectionOf(h.saved[op.seen.id], op.chosen))
      && op.seen.(usedAt := None) == h.saved[op.seen.id]
  {
    WaitsIsDecidable(h, op.seen.id, op.seen.csrfHash, now);
    assert op.seen.(usedAt := None) == h.saved[op.seen.id];
  }

  /** Histories only grow: what they say of a code or a grant stays. */
  lemma ToldStays(h: Story, t: Story)
    requires Told(h)
    requires forall id :: id in h.saved ==> id in t.saved && t.saved[id] == h.saved[id]
    requires forall id :: id in h.approved ==> id in t.approved && t.approved[id] == h.approved[id]
    requires forall g :: g in h.redeemed ==> g in t.redeemed && t.redeemed[g] == h.redeemed[g]
    ensures forall id :: id in h.approved ==> h.approved[id].requestId in h.saved && CodeAsTold(t, id) == CodeAsTold(h, id)
    ensures forall g :: g in h.redeemed ==> GrantAsTold(t, g) == GrantAsTold(h, g)
  {
    forall id | id in h.approved ensures h.approved[id].requestId in h.saved { assert CodeTold(h, id); }
  }

  lemma ToldSave(h: Story, record: Request, now: int)
    requires Told(h) && Enabled(h.w, Save(record))
    ensures Told(Next(h, Save(record), now))
  {
    var t := Next(h, Save(record), now);
    ToldStays(h, t);
    forall id ensures CodeTold(t, id) { assert CodeTold(h, id); }
  }

  lemma ToldDeny(h: Story, id: string, csrfHash: string, now: int)
    requires Told(h) && Enabled(h.w, Deny(id, csrfHash))
    ensures Told(Next(h, Deny(id, csrfHash), now))
  {
    WaitsIsDecidable(h, id, csrfHash, now);
    var t := Next(h, Deny(id, csrfHash), now);
    ToldStays(h, t);
    forall c ensures CodeTold(t, c) { assert CodeTold(h, c); }
  }

  lemma ApprovedStep(h: Story, op: Op, now: int)
    requires Told(h) && Enabled(h.w, op) && Approves(h, op, now)
    ensures var t, code := Next(h, op, now), CodeFor(op.seen, op.codeId, op.secret, ConnectionOf(h.saved[op.seen.id], op.chosen), now, op.ttl);
            && op.codeId !in h.approved && t.saved == h.saved && t.redeemed == h.redeemed && t.spent == h.spent
            && t.approved == h.approved[op.codeId := Approval(op.seen.id, code.connectionId, op.secret, now, op.ttl)]
            && code == CodeAsTold(t, op.codeId)
            && t.w.written == h.w.written[op.codeId := code] && t.w.codes == KeepOpenCodes(h.w.codes, now)[op.codeId := code]
            && t.w.source == h.w.source && t.w.grants == h.w.grants
  {
    ApprovesGoesThrough(h, op, now);
    assert CodeTold(h, op.codeId);
  }

  lemma ApprovedRequests(h: Story, op: Op, now: int)
    requires Told(h) && Enabled(h.w, op) && Approves(h, op, now)
    ensures RequestsTold(Next(h, op, now))
  {
    ApprovesGoesThrough(h, op, now);
  }

  lemma ApprovedCode(h: Story, op: Op, now: int, id: string)
    requires Told(h) && Enabled(h.w, op) && Approves(h, op, now)
    ensures CodeTold(Next(h, op, now), id)
  {
    var t := Next(h, op, now);
    ApprovedStep(h, op, now);
    ToldStays(h, t);
    assert CodeTold(h, id);
    assert t.stale == h.stale + (set x | x in h.approved && h.approved[x].at + h.approved[x].ttl <= now);
  }

  lemma ToldApprove(h: Story, op: Op, now: int)
    requires Told(h) && op.Approve? && Enabled(h.w, op)
    ensures Told(Next(h, op, now))
  {
    if Approves(h, op, now) {
      ApprovedRequests(h, op, now);
      forall id ensures CodeTold(Next(h, op, now), id) { ApprovedCode(h, op, now, id); }
      ApprovedStep(h, op, now);
      ToldStays(h, Next(h, op, now));
    } else {
      ApprovesGoesThrough(h, op, now);
    }
  }

  lemma ExchangedStep(h: Story, op: Op, now: int)
    requires Told(h) && Enabled(h.w, op) && Redeems(h, op, now)
    ensures var t, id := Next(h, op, now), op.hash.codeId;
            && id in h.w.codes && t.w == h.w.(codes := h.w.codes[id := h.w.codes[id].(usedAt := Some(now))],
                                              grants := t.w.grants, source := h.w.source[op.grantId := id], exchanges := t.w.exchanges)
            && t == h.(w := t.w, spent := h.spent + {id}, redeemed := h.redeemed[op.grantId := id])
            && op.grantId !in h.redeemed && GrantFor(op.seenCode, op.grantId) == GrantAsTold(t, op.grantId)
            && t.w.grants == h.w.grants[op.grantId := GrantFor(op.seenCode, op.grantId)]
  {
    RedeemsIsExchangeable(h, op, now);
    assert CodeTold(h, op.hash.codeId);
  }

  lemma OneEachMore(redeemed: map<string, string>, g: string, id: string)
    requires OneEach(redeemed) && forall a :: a in redeemed ==> redeemed[a] != id
    ensures OneEach(redeemed[g := id])
  {
  }

  lemma ExchangedGrants(h: Story, op: Op, now: int)
    requires Told(h) && Enabled(h.w, op) && Redeems(h, op, now)
    ensures GrantsTold(Next(h, op, now))
  {
    var t := Next(h, op, now);
    ExchangedStep(h, op, now);
    ToldStays(h, t);
    OneEachMore(h.redeemed, op.grantId, op.hash.codeId);
    forall g | g in t.redeemed
      ensures t.redeemed[g] in t.approved && t.redeemed[g] in t.spent && t.w.grants[g] == GrantAsTold(t, g)
    {
      if g != op.grantId { assert g in h.redeemed; }
    }
  }

  lemma ExchangedCodes(h: Story, op: Op, now: int)
    requires Told(h) && Enabled(h.w, op) && Redeems(h, op, now)
    ensures RequestsTold(Next(h, op, now)) && CodesTold(Next(h, op, now))
  {
    var t := Next(h, op, now);
    ExchangedStep(h, op, now);
    ToldStays(h, t);
    forall c ensures CodeTold(t, c) { assert CodeTold(h, c); }
  }

  lemma ToldExchange(h: Story, op: Op, now: int)
    requires Told(h) && op.Exchange? && Enabled(h.w, op)
    ensures Told(Next(h, op, now))
  {
    if Redeems(h, op, now) {
      ExchangedCodes(h, op, now);
      ExchangedGrants(h, op, now);
    } else {
      RedeemsIsExchangeable(h, op, now);
      assert Next(h, op, now) == h;
    }
  }

  lemma {:induction false} ToldRun(h: Story, ops: seq<(Op, int)>, t: Story)
    requires Told(h) && Tale(h, ops, t)
    ensures Told(t)
    decreases |ops|
  {
    if ops != [] {
      var op, now := ops[0].0, ops[0].1;
      match op {
        case Save(record) => ToldSave(h, record, now);
        case Deny(id, csrfHash) => ToldDeny(h, id, csrfHash, now);
        case Approve(_, _, _, _, _, _, _) => ToldApprove(h, op, now);
        case Exchange(_, _, _, _, _, _, _) => ToldExchange(h, op, now);
      }
      ToldRun(Next(h, op, now), ops[1..], t);
    }
  }

  lemma ToldBeginning()
    ensures Told(BEGINNING)
  {
    forall id ensures CodeTold(BEGINNING, id) { }
  }

  // ---------------------------------------------------------- what it means

  /** In every run: an approval makes a code exactly if the request waits for a decision
      by this page and the connection is one it allows; then it is the code of that
      request, alive for its lifetime. The request is decided only if it was told so. */
  lemma ApprovedExactly(ops: seq<(Op, int)>, h: Story, op: Op, now: int)
    requires Tale(BEGINNING, ops, h) && op.Approve? && Enabled(h.w, op)
    ensures op.codeId in Step(h.w, op, now).codes <==> Approves(h, op, now)
    ensures Approves(h, op, now) ==>
      var c, r := Step(h.w, op, now).codes[op.codeId], h.saved[op.seen.id];
      c == Code(op.codeId, CodeHash(op.codeId, op.secret), r.clientId, r.redirectUri, r.challenge, r.resource, r.userId, r.tenantId,
                ConnectionOf(r, op.chosen), r.scopes, now + op.ttl, None)
    ensures op.seen.id in h.w.requests ==>
      (op.seen.id in Step(h.w, op, now).requests
       && (Step(h.w, op, now).requests[op.seen.id].usedAt.Some? <==> op.seen.id in h.closed || (Approves(h, op, now) && op.requestWritten)))
  {
    ToldBeginning();
    ToldRun(BEGINNING, ops, h);
    ApprovesGoesThrough(h, op, now);
    assert CodeTold(h, op.codeId);
    if Approves(h, op, now) { ApprovedStep(h, op, now); }
  }

  /** In every run: an exchange makes a grant exactly if the code is redeemed by it, and
      what the grant says is what was asked for and approved. */
  lemma ExchangedExactly(ops: seq<(Op, int)>, h: Story, op: Op, now: int)
    requires Tale(BEGINNING, ops, h) && op.Exchange? && Enabled(h.w, op)
    ensures op.grantId in Step(h.w, op, now).grants <==> Redeems(h, op, now)
    ensures Redeems(h, op, now) ==>
      var made := h.approved[op.hash.codeId];
      var r := h.saved[made.requestId];
      Step(h.w, op, now).grants[op.grantId] == Grant(op.grantId, r.clientId, r.userId, r.tenantId, made.connectionId, r.resource, r.scopes)
    ensures !Redeems(h, op, now) ==> Step(h.w, op, now) == h.w
  {
    ToldBeginning();
    ToldRun(BEGINNING, ops, h);
    RedeemsIsExchangeable(h, op, now);
    if Redeems(h, op, now) { ExchangedStep(h, op, now); }
  }

  /** In every run no two grants are made for one code. */
  lemma OneGrantPerCode(ops: seq<(Op, int)>, h: Story, a: string, b: string)
    requires Tale(BEGINNING, ops, h) && a in h.w.grants && b in h.w.grants
    ensures a in h.redeemed && b in h.redeemed && (h.redeemed[a] == h.redeemed[b] ==> a == b)
  {
    ToldBeginning();
    ToldRun(BEGINNING, ops, h);
  }

  /** In every run: denying, like approving, decides exactly a request that waits for it. */
  lemma DeniedExactly(ops: seq<(Op, int)>, h: Story, id: string, csrfHash: string, now: int)
    requires Tale(BEGINNING, ops, h)
    ensures Step(h.w, Deny(id, csrfHash), now)
            == if Waits(h, id, csrfHash, now) then h.w.(requests := h.w.requests[id := h.saved[id].(usedAt := Some(now))]) else h.w
  {
    ToldBeginning();
    ToldRun(BEGINNING, ops, h);
    WaitsIsDecidable(h, id, csrfHash, now);
  }

  /** The clock never went back, and a request is stored when it is made. */
  ghost predicate OnTime(ops: seq<(Op, int)>, from: int, to: int)
    decreases |ops|
  {
    if ops == [] then from <= to
    else from <= ops[0].1 && (ops[0].0.Save? ==> ops[0].0.record.createdAt == ops[0].1) && OnTime(ops[1..], ops[0].1, to)
  }

  ghost predicate OverdueBy(h: Story, now: int) {
    && (forall id :: id in h.overdue ==> id in h.saved && h.saved[id].expiresAt <= now)
    && (forall id :: id in h.stale ==> id in h.approved && h.approved[id].at + h.approved[id].ttl <= now)
  }

  lemma OverdueStep(h: Story, op: Op, now: int)
    requires Told(h) && Enabled(h.w, op) && OverdueBy(h, now) && (op.Save? ==> op.record.createdAt == now)
    ensures OverdueBy(Next(h, op, now), now)
  {
    if op.Approve? && Approves(h, op, now) { ApprovedStep(h, op, now); }
  }

  lemma {:induction false} OverdueRun(h: Story, ops: seq<(Op, int)>, t: Story, from: int, to: int)
    requires Told(h) && OverdueBy(h, from) && Tale(h, ops, t) && OnTime(ops, from, to)
    ensures OverdueBy(t, to)
    decreases |ops|
  {
    if ops != [] {
      var op, now := ops[0].0, ops[0].1;
      OverdueStep(h, op, now);
      ToldRun(h, [ops[0]], Next(h, op, now)) by { assert [ops[0]][1..] == []; }
      OverdueRun(Next(h, op, now), ops[1..], t, now, to);
    }
  }

  /** With a clock that never goes back, only the deadlines themselves count: clearing
      out the stores is invisible. */
  lemma CleaningIsInvisible(ops: seq<(Op, int)>, h: Story, start: int, now: int, id: string, csrfHash: string)
    requires Tale(BEGINNING, ops, h) && OnTime(ops, start, now)
    ensures Decidable(h.w.requests, id, csrfHash, now)
       <==> id in h.saved && id !in h.closed && csrfHash == h.saved[id].csrfHash && now < h.saved[id].expiresAt
    ensures id in h.approved && now < h.approved[id].at + h.approved[id].ttl ==> id !in h.stale
  {
    ToldBeginning();
    ToldRun(BEGINNING, ops, h);
    OverdueRun(BEGINNING, ops, h, start, now);
    WaitsIsDecidable(h, id, csrfHash, now);
  }
}
