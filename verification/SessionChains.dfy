/** What a presented refresh token is answered, by its place in the chain of tokens of
    its session, and who ends a session, over every run of the file store. */
module SessionChains {
  import opened Base
  import opened RefreshReplay
  import opened Sessions
  import opened SessionRuns

  /** A stored session against its chain: the live token is the last one, up to ten
      before it are remembered, the envelope is of the last rotation, and the two ends
      follow from the first and the last link. */
  predicate Follows(s: Session, c: seq<Link>, cfg: Config)
    requires c != []
  {
    var n := |c| - 1;
    && s.tokenHash == Sha(c[n].token)
    && |s.previous| == Min(REMEMBERED, n)
    && (forall j :: 0 <= j < |s.previous| ==> s.previous[j] == Sha(c[n - |s.previous| + j].token))
    && s.replay == (if n > 0 && c[n].fingerprint.Some?
                    then Some(Replay(Sha(c[n - 1].token), c[n].fingerprint.value, c[n].at, c[n].token)) else None)
    && s.absoluteExpiresAt == c[0].at + cfg.absoluteTtl
    && s.expiresAt == (if n == 0 then c[0].at + cfg.refreshTtl else Min(c[n].at + cfg.refreshTtl, s.absoluteExpiresAt))
  }

  predicate ChainInv(s: Session, chains: map<string, seq<Link>>, cfg: Config) {
    s.id in chains && chains[s.id] != [] && Follows(s, chains[s.id], cfg)
  }

  predicate IsLink(chains: map<string, seq<Link>>, id: string, k: nat, token: string) {
    id in chains && k < |chains[id]| && chains[id][k].token == token
  }

  /** No token is in two places. */
  ghost predicate Apart(chains: map<string, seq<Link>>) {
    forall a, i: nat, b, j: nat, token :: IsLink(chains, a, i, token) && IsLink(chains, b, j, token) ==> a == b && i == j
  }

  ghost predicate LinksMinted(w: World) {
    w.chains.Keys <= w.ids && forall id, k: nat, token :: IsLink(w.chains, id, k, token) ==> token in w.minted
  }

  ghost predicate ChainsInv(w: World, cfg: Config) {
    && Apart(w.chains) && LinksMinted(w)
    && forall k :: 0 <= k < |w.sessions| ==> ChainInv(w.sessions[k], w.chains, cfg)
  }

  lemma RotatedFollows(s: Session, c: seq<Link>, r: Request, now: int, cfg: Config)
    requires c != [] && Follows(s, c, cfg)
    ensures Follows(Rotate(s, r, now, cfg), c + [Link(r.minted, r.fingerprint, now)], cfg)
  {
  }

  lemma LinkedApart(w: World, id: string, link: Link)
    requires Apart(w.chains) && LinksMinted(w) && link.token !in w.minted
    ensures Apart(Linked(w.chains, id, link))
    ensures forall a, k: nat, token :: IsLink(Linked(w.chains, id, link), a, k, token) ==> token in w.minted || token == link.token
  {
    var chains := Linked(w.chains, id, link);
    forall a, k: nat, token | IsLink(chains, a, k, token)
      ensures IsLink(w.chains, a, k, token) || (a == id && k == |chains[id]| - 1 && token == link.token)
    {
    }
  }

  lemma RotatedChains(w: World, k: nat, s: Session, r: Request, now: int, cfg: Config)
    requires Inv(w) && ChainsInv(w, cfg) && k < |w.sessions| && r.minted !in w.minted
    requires s == Rotate(w.sessions[k], r, now, cfg)
    ensures ChainsInv(w.(sessions := w.sessions[k := s], minted := w.minted + {r.minted}, next := w.next[r.presented := r.minted],
                         chains := Linked(w.chains, s.id, Link(r.minted, r.fingerprint, now))), cfg)
  {
    var link := Link(r.minted, r.fingerprint, now);
    var sessions, chains := w.sessions[k := s], Linked(w.chains, s.id, link);
    assert ChainInv(w.sessions[k], w.chains, cfg);
    RotatedFollows(w.sessions[k], w.chains[s.id], r, now, cfg);
    LinkedApart(w, s.id, link);
    forall i | 0 <= i < |sessions| ensures ChainInv(sessions[i], chains, cfg) {
      if i != k { assert ChainInv(w.sessions[i], w.chains, cfg); }
    }
  }

  lemma RevokedChains(w: World, sessions: seq<Session>, cfg: Config)
    requires ChainsInv(w, cfg) && |sessions| == |w.sessions|
    requires forall i :: 0 <= i < |sessions| ==> sessions[i] == w.sessions[i].(revokedAt := sessions[i].revokedAt)
    ensures ChainsInv(w.(sessions := sessions), cfg)
  {
    forall i | 0 <= i < |sessions| ensures ChainInv(sessions[i], w.chains, cfg) {
      assert ChainInv(w.sessions[i], w.chains, cfg);
    }
  }

  lemma PrunedChains(w: World, now: int, cfg: Config)
    requires ChainsInv(w, cfg)
    ensures ChainsInv(w.(sessions := PruneEdit(w.sessions, now)), cfg)
  {
    PruneMembers(w.sessions, now);
    var kept := PruneEdit(w.sessions, now);
    forall i | 0 <= i < |kept| ensures ChainInv(kept[i], w.chains, cfg) { assert kept[i] in w.sessions; }
  }

  lemma CreatedChains(w: World, op: Op, now: int, cfg: Config)
    requires Inv(w) && ChainsInv(w, cfg) && Enabled(w, op) && op.Create?
    ensures ChainsInv(Step(w, op, now, cfg), cfg)
  {
    var link := Link(op.token, None, now);
    var v := Step(w, op, now, cfg);
    assert op.id !in w.chains;
    assert v.chains == Linked(w.chains, op.id, link) by { assert [] + [link] == [link]; }
    LinkedApart(w, op.id, link);
    forall i | 0 <= i < |v.sessions| ensures ChainInv(v.sessions[i], v.chains, cfg) {
      if i < |w.sessions| { assert ChainInv(w.sessions[i], w.chains, cfg) && SessionInv(w.sessions[i], w.ids, w.minted, w.next); }
    }
  }

  lemma ChainsStep(w: World, op: Op, now: int, cfg: Config)
    requires Inv(w) && ChainsInv(w, cfg) && Enabled(w, op)
    ensures ChainsInv(Step(w, op, now, cfg), cfg)
  {
    match op {
      case Create(_, _, _) => CreatedChains(w, op, now, cfg);
      case Present(r) =>
        var k := FindCurrent(w.sessions, Sha(r.presented));
        if k.Some? && Usable(w.sessions[k.value], now) {
          RotatedChains(w, k.value, Rotate(w.sessions[k.value], r, now, cfg), r, now, cfg);
        } else {
          RevokedChains(w, Step(w, op, now, cfg).sessions, cfg);
        }
      case Logout(_) => RevokedChains(w, Step(w, op, now, cfg).sessions, cfg);
      case LogoutAll(_) => RevokedChains(w, Step(w, op, now, cfg).sessions, cfg);
      case Prune => PrunedChains(w, now, cfg);
    }
  }

  lemma {:induction false} ChainsRun(w: World, ops: seq<(Op, int)>, v: World, cfg: Config)
    requires Inv(w) && ChainsInv(w, cfg) && Run(w, ops, v, cfg)
    ensures Inv(v) && ChainsInv(v, cfg)
    decreases |ops|
  {
    if ops != [] {
      InvStep(w, ops[0].0, ops[0].1, cfg);
      ChainsStep(w, ops[0].0, ops[0].1, cfg);
      ChainsRun(Step(w, ops[0].0, ops[0].1, cfg), ops[1..], v, cfg);
    }
  }

  // -------------------------------------------- what a presentation is answered

  /** The client that made the last rotation, asking again in time. */
  predicate RecognisedRetry(c: seq<Link>, k: nat, r: Request, now: int, cfg: Config)
    requires k < |c|
  {
    var last := c[|c| - 1];
    && k == |c| - 2 && last.fingerprint.Some? && r.fingerprint == last.fingerprint
    && last.at <= now <= last.at + cfg.graceSeconds && r.opens
  }

  /** When a chain's live token stops working. */
  function EndOf(c: seq<Link>, cfg: Config): int
    requires c != []
  {
    Min(c[|c| - 1].at + cfg.refreshTtl, c[0].at + cfg.absoluteTtl)
  }

  /** The answer owed to the k-th token of a session. */
  function AnswerByAge(id: string, revoked: bool, c: seq<Link>, k: nat, r: Request, now: int, cfg: Config): Rotation
    requires k < |c|
  {
    var n := |c| - 1;
    if k == n then if !revoked && now < EndOf(c, cfg) then Renewed(id, r.minted) else Invalid
    else if n - k > REMEMBERED then Invalid
    else if !revoked && RecognisedRetry(c, k, r, now, cfg) then Replayed(id, c[n].token)
    else Reuse(id)
  }

  lemma SameSession(w: World, cfg: Config, i: nat, j: nat, k: nat, m: nat, token: string)
    requires Inv(w) && ChainsInv(w, cfg) && i < |w.sessions| && j < |w.sessions|
    requires IsLink(w.chains, w.sessions[i].id, k, token) && IsLink(w.chains, w.sessions[j].id, m, token)
    ensures i == j && k == m
  {
  }

  lemma CurrentIsLast(w: World, cfg: Config, i: nat, k: nat, token: string)
    requires Inv(w) && ChainsInv(w, cfg) && i < |w.sessions| && IsLink(w.chains, w.sessions[i].id, k, token)
    ensures FindCurrent(w.sessions, Sha(token)) == if k == |w.chains[w.sessions[i].id]| - 1 then Some(i) else None
  {
    assert ChainInv(w.sessions[i], w.chains, cfg);
    var found := FindCurrent(w.sessions, Sha(token));
    if found.Some? {
      var j := found.value;
      assert ChainInv(w.sessions[j], w.chains, cfg);
      var m := |w.chains[w.sessions[j].id]| - 1;
      SameSession(w, cfg, i, j, k, m, token);
    }
  }

  lemma VictimRemembers(w: World, cfg: Config, i: nat, k: nat, token: string)
    requires Inv(w) && ChainsInv(w, cfg) && i < |w.sessions| && IsLink(w.chains, w.sessions[i].id, k, token)
    ensures var n := |w.chains[w.sessions[i].id]| - 1;
            FindVictim(w.sessions, Sha(token)) == if n - REMEMBERED <= k < n then Some(i) else None
  {
    var n := |w.chains[w.sessions[i].id]| - 1;
    assert ChainInv(w.sessions[i], w.chains, cfg);
    if n - REMEMBERED <= k < n {
      assert w.sessions[i].previous[k - (n - |w.sessions[i].previous|)] == Sha(token);
    }
    var found := FindVictim(w.sessions, Sha(token));
    if found.Some? {
      var j := found.value;
      assert ChainInv(w.sessions[j], w.chains, cfg);
      var s, c := w.sessions[j], w.chains[w.sessions[j].id];
      var p :| 0 <= p < |s.previous| && s.previous[p] == Sha(token);
      SameSession(w, cfg, i, j, k, |c| - 1 - |s.previous| + p, token);
    }
  }

  /** Over every run: a token of a stored session is answered by how many rotations ago
      it was live. The live one renews until the session ends; one of the last ten is
      answered with its successor if it is the recognised retry of the last rotation,
      and as theft if not; an older one is refused. */
  lemma PresentationByAge(ops: seq<(Op, int)>, w: World, r: Request, now: int, i: nat, k: nat, cfg: Config)
    requires Run(EMPTY, ops, w, cfg) && i < |w.sessions| && IsLink(w.chains, w.sessions[i].id, k, r.presented)
    ensures var s := w.sessions[i];
            RotateEdit(w.sessions, r, now, cfg).1 == AnswerByAge(s.id, s.revokedAt.Some?, w.chains[s.id], k, r, now, cfg)
  {
    ChainsRun(EMPTY, ops, w, cfg);
    CurrentIsLast(w, cfg, i, k, r.presented);
    VictimRemembers(w, cfg, i, k, r.presented);
    AnswerOfSession(w, r, now, i, k, cfg);
  }

  lemma AnswerOfSession(w: World, r: Request, now: int, i: nat, k: nat, cfg: Config)
    requires Inv(w) && ChainsInv(w, cfg)
    requires i < |w.sessions| && IsLink(w.chains, w.sessions[i].id, k, r.presented)
    requires var n := |w.chains[w.sessions[i].id]| - 1;
             && FindCurrent(w.sessions, Sha(r.presented)) == (if k == n then Some(i) else None)
             && FindVictim(w.sessions, Sha(r.presented)) == (if n - REMEMBERED <= k < n then Some(i) else None)
    ensures var s := w.sessions[i];
            RotateEdit(w.sessions, r, now, cfg).1 == AnswerByAge(s.id, s.revokedAt.Some?, w.chains[s.id], k, r, now, cfg)
  {
    var s, c := w.sessions[i], w.chains[w.sessions[i].id];
    assert ChainInv(s, w.chains, cfg);
    var n := |c| - 1;
    if k < n - 1 && c[n].fingerprint.Some? {
      if c[n - 1].token == r.presented { SameSession(w, cfg, i, i, k, n - 1, r.presented); }
    }
  }

  /** A token that is no link of a stored session is refused and leaves no trace. */
  lemma UnknownIsRefused(ops: seq<(Op, int)>, w: World, r: Request, now: int, cfg: Config)
    requires Run(EMPTY, ops, w, cfg)
    requires forall i, k: nat :: 0 <= i < |w.sessions| ==> !IsLink(w.chains, w.sessions[i].id, k, r.presented)
    ensures RotateEdit(w.sessions, r, now, cfg) == (w.sessions, Invalid)
  {
    ChainsRun(EMPTY, ops, w, cfg);
    var found := FindCurrent(w.sessions, Sha(r.presented));
    if found.Some? {
      assert ChainInv(w.sessions[found.value], w.chains, cfg);
      assert IsLink(w.chains, w.sessions[found.value].id, |w.chains[w.sessions[found.value].id]| - 1, r.presented);
    }
    var victim := FindVictim(w.sessions, Sha(r.presented));
    if victim.Some? {
      var s := w.sessions[victim.value];
      assert ChainInv(s, w.chains, cfg);
      var p :| 0 <= p < |s.previous| && s.previous[p] == Sha(r.presented);
      assert IsLink(w.chains, s.id, |w.chains[s.id]| - 1 - |s.previous| + p, r.presented);
    }
  }

  // ------------------------------------------------------ who ends a session

  /** What revokes the session with this id, user and live token. */
  predicate Ends(op: Op, answer: Rotation, id: string, userId: string, live: string) {
    match op
    case Logout(token) => token == live
    case LogoutAll(user) => user == userId
    case Present(_) => answer == Reuse(id)
    case _ => false
  }

  /** What a call does to the i-th stored session. */
  ghost predicate RevokedAsOwed(w: World, op: Op, now: int, i: nat, cfg: Config)
    requires i < |w.sessions|
  {
    var v, s := Step(w, op, now, cfg), w.sessions[i];
    var answer := if op.Present? then RotateEdit(w.sessions, op.r, now, cfg).1 else Invalid;
    && i < |v.sessions| && v.sessions[i].id == s.id && v.sessions[i].userId == s.userId
    && s.id in w.chains && w.chains[s.id] != []
    && (v.sessions[i].revokedAt.Some? <==>
          s.revokedAt.Some? || Ends(op, answer, s.id, s.userId, w.chains[s.id][|w.chains[s.id]| - 1].token))
  }

  lemma RevokedByLogout(w: World, op: Op, now: int, i: nat, cfg: Config)
    requires Inv(w) && ChainsInv(w, cfg) && (op.Logout? || op.LogoutAll?) && i < |w.sessions|
    ensures RevokedAsOwed(w, op, now, i, cfg)
  {
    var s := w.sessions[i];
    assert ChainInv(s, w.chains, cfg);
    if op.Logout? {
      var holder := FindHolder(w.sessions, Sha(op.token));
      if holder.Some? && holder.value != i { assert w.sessions[holder.value].tokenHash != s.tokenHash; }
    }
  }

  lemma RevokedInStep(w: World, op: Op, now: int, i: nat, cfg: Config)
    requires Inv(w) && ChainsInv(w, cfg) && Enabled(w, op) && !op.Prune? && i < |w.sessions|
    ensures RevokedAsOwed(w, op, now, i, cfg)
  {
    if op.Logout? || op.LogoutAll? {
      RevokedByLogout(w, op, now, i, cfg);
    } else {
      assert ChainInv(w.sessions[i], w.chains, cfg);
    }
  }

  /** Over every run and for every stored session: a call leaves it revoked exactly if
      it was, or the call is a logout with its live token, a logout of its user
      everywhere, or a presentation answered as theft of it. */
  lemma RevokedExactly(ops: seq<(Op, int)>, w: World, op: Op, now: int, i: nat, cfg: Config)
    requires Run(EMPTY, ops, w, cfg) && Enabled(w, op) && !op.Prune? && i < |w.sessions|
    ensures RevokedAsOwed(w, op, now, i, cfg)
  {
    ChainsRun(EMPTY, ops, w, cfg);
    RevokedInStep(w, op, now, i, cfg);
  }

  /** A session revoked as stolen is dead, and from then on nothing activates, renews
      or replays it. */
  lemma ReuseEndsTheSession(ops: seq<(Op, int)>, w: World, r: Request, now: int, id: string, later: seq<(Op, int)>, v: World, cfg: Config)
    requires Run(EMPTY, ops, w, cfg) && Enabled(w, Present(r)) && RotateEdit(w.sessions, r, now, cfg).1 == Reuse(id)
    requires Run(Step(w, Present(r), now, cfg), later, v, cfg)
    ensures Dead(Step(w, Present(r), now, cfg), id) && Dead(v, id)
    ensures forall userId, at :: !Active(v.sessions, id, userId, at)
    ensures forall q, at :: GivesToken(RotateEdit(v.sessions, q, at, cfg).1) ==> RotateEdit(v.sessions, q, at, cfg).1.sessionId != id
  {
    ChainsRun(EMPTY, ops, w, cfg);
    var u := Step(w, Present(r), now, cfg);
    StolenIsDead(w, r, now, id, cfg);
    InvStep(w, Present(r), now, cfg);
    RevokedForGood(u, later, v, id, cfg);
  }

  lemma StolenIsDead(w: World, r: Request, now: int, id: string, cfg: Config)
    requires Inv(w) && RotateEdit(w.sessions, r, now, cfg).1 == Reuse(id)
    ensures Dead(Step(w, Present(r), now, cfg), id)
  {
    var k := FindVictim(w.sessions, Sha(r.presented)).value;
    assert SessionInv(w.sessions[k], w.ids, w.minted, w.next);
  }

  function LiveOf(sessions: seq<Session>, userId: string): set<nat> {
    set i: nat | i < |sessions| && sessions[i].userId == userId && sessions[i].revokedAt.None?
  }

  lemma {:induction false} CountIsLive(sessions: seq<Session>, userId: string)
    ensures CountLive(sessions, userId) == |LiveOf(sessions, userId)|
  {
    if sessions != [] {
      var n := |sessions| - 1;
      CountIsLive(sessions[..n], userId);
      var before, all := LiveOf(sessions[..n], userId), LiveOf(sessions, userId);
      if n in all { assert all == before + {n}; } else { assert all == before; }
    }
  }

  /** Logging a user out everywhere reports how many sessions it ended. */
  lemma LogoutAllCounts(sessions: seq<Session>, userId: string, now: int)
    ensures CountLive(sessions, userId) == |set i: nat | i < |sessions| && RevokeAllEdit(sessions, userId, now)[i] != sessions[i]|
  {
    CountIsLive(sessions, userId);
    assert LiveOf(sessions, userId) == set i: nat | i < |sessions| && RevokeAllEdit(sessions, userId, now)[i] != sessions[i];
  }

  /** The end a session is stored with: before its first rotation it is not capped. */
  function StoredEnd(c: seq<Link>, cfg: Config): int
    requires c != []
  {
    if |c| == 1 then c[0].at + cfg.refreshTtl else EndOf(c, cfg)
  }

  /** Housekeeping drops a session exactly when it ended, or was revoked, more than a
      week ago. */
  lemma PrunedExactly(ops: seq<(Op, int)>, w: World, now: int, i: nat, cfg: Config)
    requires Run(EMPTY, ops, w, cfg) && i < |w.sessions|
    ensures var s := w.sessions[i];
            && s.id in w.chains && w.chains[s.id] != []
            && (s in PruneEdit(w.sessions, now) <==>
                  now <= StoredEnd(w.chains[s.id], cfg) + 604800 && (s.revokedAt.Some? ==> now <= s.revokedAt.value + 604800))
  {
    ChainsRun(EMPTY, ops, w, cfg);
    PruneMembers(w.sessions, now);
    assert ChainInv(w.sessions[i], w.chains, cfg);
  }
}
