/** The promises of refresh rotation, for every reachable state of a grant. */
module OAuthGrantSafety {
  import opened Base
  import opened RefreshReplay
  import opened OAuthGrants
  import opened OAuthGrantRuns
  import RevisionLoop

  /** The states a grant can be in after its code was exchanged. */
  ghost predicate Reachable(h: History, offline: bool, cfg: Config) {
    exists id, clientId, resource, pair, now, ops ::
      WellFormed(id, pair) && Run(Begin(id, clientId, resource, pair, offline, now, cfg), ops, h, cfg)
  }

  lemma ReachableInv(h: History, offline: bool, cfg: Config)
    requires Reachable(h, offline, cfg)
    ensures Inv(h, offline, cfg)
  {
    var id, clientId, resource, pair, now, ops :|
      WellFormed(id, pair) && Run(Begin(id, clientId, resource, pair, offline, now, cfg), ops, h, cfg);
    InvBegin(id, clientId, resource, pair, offline, now, cfg);
    InvRun(Begin(id, clientId, resource, pair, offline, now, cfg), ops, h, offline, cfg);
  }

  /** Exactly the ten refresh tokens retired last are remembered. */
  lemma RememberedRefresh(h: History, offline: bool, cfg: Config, token: Token)
    requires Inv(h, offline, cfg)
    ensures Sha(token) in h.grant.previousRefresh
       <==> exists k :: Max(0, |h.minted| - 1 - REMEMBERED_REFRESH) <= k < |h.minted| - 1 && h.minted[k].pair.refresh == token
  {
    var n := |h.minted| - 1;
    var lo := Max(0, n - REMEMBERED_REFRESH);
    if Sha(token) in h.grant.previousRefresh {
      var j :| 0 <= j < |h.grant.previousRefresh| && h.grant.previousRefresh[j] == Sha(token);
      RefreshHashAt(h.minted, lo, n, j);
      assert h.minted[lo + j].pair.refresh == token;
    }
    if k :| lo <= k < n && h.minted[k].pair.refresh == token {
      RefreshHashAt(h.minted, lo, n, k - lo);
      assert h.grant.previousRefresh[k - lo] == Sha(token);
    }
  }

  lemma RetryNamesTheLastRetired(h: History, offline: bool, cfg: Config, op: Op, now: int, k: nat)
    requires Inv(h, offline, cfg) && op.Renew? && k < |h.minted| && op.r.presented == h.minted[k].pair.refresh
    requires ReplayVerdict(h.grant.replay, Sha(op.r.presented), op.r.fingerprint, now, cfg.graceSeconds) != Unknown
    ensures k == |h.minted| - 2 && h.grant.replay.Some? && h.grant.replay.value.sealed == h.minted[k + 1].pair
  {
  }

  /** A request the grant looks at, presenting the refresh token minted k-th. */
  predicate Considered(h: History, op: Op, now: int, k: nat) {
    && op.Renew? && k < |h.minted| && op.r.presented == h.minted[k].pair.refresh
    && Admissible(h.grant, op.r) && !WrongResourceOrExpired(h.grant, op.r, now)
  }

  lemma RememberedByAge(h: History, offline: bool, cfg: Config, op: Op, now: int, k: nat)
    requires Inv(h, offline, cfg) && Considered(h, op, now, k)
    ensures Sha(op.r.presented) in h.grant.previousRefresh <==> |h.minted| - 1 - REMEMBERED_REFRESH <= k < |h.minted| - 1
  {
    RememberedRefresh(h, offline, cfg, op.r.presented);
  }

  lemma LiveTokenMints(h: History, offline: bool, cfg: Config, op: Op, now: int)
    requires Inv(h, offline, cfg) && offline && Considered(h, op, now, |h.minted| - 1)
    ensures RenewResult(h, op, now, cfg) == Issued(op.pair)
    ensures Step(h, op, now, cfg).minted == h.minted + [Mint(op.pair, now)]
  {
    RememberedByAge(h, offline, cfg, op, now, |h.minted| - 1);
  }

  lemma RetiredTokenIsAnswered(h: History, offline: bool, cfg: Config, op: Op, now: int, k: nat)
    requires Inv(h, offline, cfg) && Considered(h, op, now, k)
    requires |h.minted| - 1 - REMEMBERED_REFRESH <= k < |h.minted| - 1
    ensures var n, result, t := |h.minted| - 1, RenewResult(h, op, now, cfg), Step(h, op, now, cfg);
            && t.minted == h.minted
            && match result
               case Replayed(pair) => k == n - 1 && pair == h.minted[n].pair && t == h.(clock := now)
               case Unverified => k == n - 1 && t == h.(clock := now)
               case ReuseDetected => t.grant.revokedAt == Some(now)
               case _ => false
  {
    RememberedByAge(h, offline, cfg, op, now, k);
    if ReplayVerdict(h.grant.replay, Sha(op.r.presented), op.r.fingerprint, now, cfg.graceSeconds) != Unknown {
      RetryNamesTheLastRetired(h, offline, cfg, op, now, k);
    }
  }

  lemma ForgottenTokenIsRefused(h: History, offline: bool, cfg: Config, op: Op, now: int, k: nat)
    requires Inv(h, offline, cfg) && offline && Considered(h, op, now, k) && k < |h.minted| - 1 - REMEMBERED_REFRESH
    ensures RenewResult(h, op, now, cfg) == Invalid && Step(h, op, now, cfg) == h.(clock := now)
  {
    RememberedByAge(h, offline, cfg, op, now, k);
  }

  /** What a refresh request gets depends on how long ago its token was retired:
      the live one mints the next pair; one of the last ten is answered with the
      pair already minted for it, refused, or ends the grant; an older one is
      refused and changes nothing. */
  lemma RefreshByAge(h: History, offline: bool, cfg: Config, op: Op, now: int, k: nat)
    requires Reachable(h, offline, cfg) && offline && Considered(h, op, now, k)
    ensures var n, result, t := |h.minted| - 1, RenewResult(h, op, now, cfg), Step(h, op, now, cfg);
            && (k == n ==> result == Issued(op.pair) && t.minted == h.minted + [Mint(op.pair, now)])
            && (n - REMEMBERED_REFRESH <= k < n ==>
                  t.minted == h.minted &&
                  match result
                  case Replayed(pair) => k == n - 1 && pair == h.minted[n].pair && t == h.(clock := now)
                  case Unverified => k == n - 1 && t == h.(clock := now)
                  case ReuseDetected => t.grant.revokedAt == Some(now)
                  case _ => false)
            && (k < n - REMEMBERED_REFRESH ==> result == Invalid && t == h.(clock := now))
  {
    ReachableInv(h, offline, cfg);
    var n := |h.minted| - 1;
    if k == n { LiveTokenMints(h, offline, cfg, op, now); }
    else if n - REMEMBERED_REFRESH <= k { RetiredTokenIsAnswered(h, offline, cfg, op, now, k); }
    else { ForgottenTokenIsRefused(h, offline, cfg, op, now, k); }
  }

  /** Whatever the request, tokens are only ever handed out for a minted refresh
      token, and they are the pair minted when that token was retired. Two answers
      for one token therefore carry the same pair, and a retired token mints nothing. */
  lemma OneSuccessorPerToken(h: History, offline: bool, cfg: Config, op: Op, now: int)
    requires Reachable(h, offline, cfg) && op.Renew?
    ensures var result, t := RenewResult(h, op, now, cfg), Step(h, op, now, cfg);
            && h.minted <= t.minted
            && (result.Issued? || result.Replayed? ==>
                  exists k :: 0 <= k < |t.minted| - 1 && t.minted[k].pair.refresh == op.r.presented && t.minted[k + 1].pair == result.pair)
            && (result.Issued? ==> op.r.presented == h.minted[|h.minted| - 1].pair.refresh)
  {
    ReachableInv(h, offline, cfg);
    RenewShape(h, op, now, cfg);
    var n, t := |h.minted| - 1, Step(h, op, now, cfg);
    var result := RenewResult(h, op, now, cfg);
    if result.Issued? {
      assert t.minted[n] == h.minted[n] && t.minted[n + 1].pair == op.pair == result.pair;
    } else if result.Replayed? {
      RememberedRefresh(h, offline, cfg, op.r.presented);
      var k :| Max(0, n - REMEMBERED_REFRESH) <= k < n && h.minted[k].pair.refresh == op.r.presented;
      RetryNamesTheLastRetired(h, offline, cfg, op, now, k);
      assert t.minted == h.minted && t.minted[k + 1].pair == result.pair;
    }
  }

  /** A token nobody minted is refused and leaves no trace. */
  lemma InventedTokenIsRefused(h: History, offline: bool, cfg: Config, op: Op, now: int)
    requires Reachable(h, offline, cfg) && op.Renew?
    requires forall k :: 0 <= k < |h.minted| ==> h.minted[k].pair.refresh != op.r.presented
    ensures RenewResult(h, op, now, cfg) == Invalid && Step(h, op, now, cfg) == h.(clock := now)
  {
    ReachableInv(h, offline, cfg);
    RememberedRefresh(h, offline, cfg, op.r.presented);
  }

  lemma {:induction false} ExpiredMeans(minted: seq<Mint>, n: nat, now: int, cfg: Config)
    requires n <= |minted|
    ensures var e := Expired(minted, n, now, cfg); e > 0 ==> Over(minted[e - 1], now, cfg)
  {
    if n > 0 {
      ExpiredMeans(minted, n - 1, now, cfg);
    }
  }

  lemma NotExpiredIsKept(h: History, offline: bool, cfg: Config, k: nat, now: int)
    requires Inv(h, offline, cfg) && k < |h.minted| - 1 && now >= h.clock && !Over(h.minted[k], now, cfg)
    ensures k >= OldestKept(h.minted, cfg) <==> |h.minted| - 1 - k <= REMEMBERED_ACCESS
  {
    var n := |h.minted| - 1;
    ExpiredMeans(h.minted, n, h.minted[n].at, cfg);
  }

  lemma KeptAccess(h: History, offline: bool, cfg: Config, k: nat)
    requires Inv(h, offline, cfg) && k < |h.minted| - 1
    ensures k >= OldestKept(h.minted, cfg) <==> Entry(h.minted[k], cfg) in h.grant.previousAccess
    ensures forall earlier :: earlier in h.grant.previousAccess && earlier.hash == Sha(h.minted[k].pair.access) ==> earlier == Entry(h.minted[k], cfg)
  {
    var n, lo := |h.minted| - 1, OldestKept(h.minted, cfg);
    if k >= lo {
      EntryAt(h.minted, lo, n, k - lo, cfg);
    }
    forall j | 0 <= j < n - lo ensures h.grant.previousAccess[j] == Entry(h.minted[lo + j], cfg) {
      EntryAt(h.minted, lo, n, j, cfg);
    }
  }

  lemma LiveAccessIsNotOld(h: History, offline: bool, cfg: Config)
    requires Inv(h, offline, cfg)
    ensures forall earlier :: earlier in h.grant.previousAccess ==> earlier.hash != Sha(h.minted[|h.minted| - 1].pair.access)
  {
    var n, lo := |h.minted| - 1, OldestKept(h.minted, cfg);
    forall j | 0 <= j < n - lo ensures h.grant.previousAccess[j].hash != Sha(h.minted[n].pair.access) {
      EntryAt(h.minted, lo, n, j, cfg);
    }
  }

  predicate WorksByHash(g: Grant, token: Token, now: int) {
    || (g.accessExpiresAt > now && g.accessHash == Some(Sha(token)))
    || exists k :: 0 <= k < |g.previousAccess| && g.previousAccess[k].expiresAt > now && g.previousAccess[k].hash == Sha(token)
  }

  lemma LiveAccessWorks(h: History, offline: bool, cfg: Config, now: int)
    requires Inv(h, offline, cfg)
    ensures var live := h.minted[|h.minted| - 1];
            WorksByHash(h.grant, live.pair.access, now) <==> !Over(live, now, cfg)
  {
    LiveAccessIsNotOld(h, offline, cfg);
  }

  lemma OldAccessWorks(h: History, offline: bool, cfg: Config, k: nat, now: int)
    requires Inv(h, offline, cfg) && k < |h.minted| - 1 && now >= h.clock
    ensures WorksByHash(h.grant, h.minted[k].pair.access, now)
       <==> !Over(h.minted[k], now, cfg) && |h.minted| - 1 - k <= REMEMBERED_ACCESS
  {
    var g, token := h.grant, h.minted[k].pair.access;
    KeptAccess(h, offline, cfg, k);
    assert g.accessHash != Some(Sha(token));
    if !Over(h.minted[k], now, cfg) {
      NotExpiredIsKept(h, offline, cfg, k, now);
      if Entry(h.minted[k], cfg) in g.previousAccess {
        var j :| 0 <= j < |g.previousAccess| && g.previousAccess[j] == Entry(h.minted[k], cfg);
        assert g.previousAccess[j].hash == Sha(token);
      }
    }
  }

  /** An access token works until its own expiry, for exactly sixteen later
      rotations, unless the grant is revoked. */
  lemma AccessLifetime(h: History, offline: bool, cfg: Config, k: nat, resource: string, now: int)
    requires Reachable(h, offline, cfg) && k < |h.minted| && now >= h.clock
    ensures Authenticates(h.grant, h.minted[k].pair.access, resource, now)
       <==> h.grant.revokedAt.None? && h.grant.resource == resource
            && now < h.minted[k].at + cfg.accessTtl && |h.minted| - 1 - k <= REMEMBERED_ACCESS
  {
    ReachableInv(h, offline, cfg);
    if k == |h.minted| - 1 {
      LiveAccessWorks(h, offline, cfg, now);
    } else {
      OldAccessWorks(h, offline, cfg, k, now);
    }
    assert Authenticates(h.grant, h.minted[k].pair.access, resource, now)
      <==> WorksByHash(h.grant, h.minted[k].pair.access, now) && h.grant.revokedAt.None? && h.grant.resource == resource;
  }

  /** Revocation is for good: no later call of any kind revives the grant or mints. */
  lemma {:induction false} RevokedForGood(h: History, ops: seq<(Op, int)>, t: History, cfg: Config)
    requires h.grant.revokedAt.Some? && Run(h, ops, t, cfg)
    ensures t.grant.revokedAt.Some? && t.minted == h.minted
    ensures forall token, resource, now :: !Authenticates(t.grant, token, resource, now)
    decreases |ops|
  {
    if ops != [] {
      RevokedForGood(Step(h, ops[0].0, ops[0].1, cfg), ops[1..], t, cfg);
    }
  }

  // ------------------------------------------------ who is looked at, who not

  /** Exactly which requests are considered: those of the grant's client for its
      resource, while it is not revoked and the pair minted last is not out of date. */
  lemma ConsideredExactly(h: History, offline: bool, cfg: Config, op: Op, now: int, k: nat)
    requires Reachable(h, offline, cfg) && offline && op.Renew? && k < |h.minted| && op.r.presented == h.minted[k].pair.refresh
    ensures Considered(h, op, now, k)
       <==> h.grant.revokedAt.None? && op.r.clientId == h.grant.clientId
            && (op.r.resource == None || op.r.resource == Some(h.grant.resource))
            && now < h.minted[|h.minted| - 1].at + cfg.refreshTtl
  {
    ReachableInv(h, offline, cfg);
  }

  /** Any other request changes nothing, and tells a stranger, the holder of a forgotten
      token or anyone else once the grant is revoked only that it is invalid. */
  lemma NotConsidered(h: History, offline: bool, cfg: Config, op: Op, now: int, k: nat)
    requires Reachable(h, offline, cfg) && offline && op.Renew? && k < |h.minted| && op.r.presented == h.minted[k].pair.refresh
    requires !Considered(h, op, now, k)
    ensures Step(h, op, now, cfg) == h.(clock := now)
    ensures RenewResult(h, op, now, cfg)
            == if h.grant.revokedAt.None? && op.r.clientId == h.grant.clientId && k >= |h.minted| - 1 - REMEMBERED_REFRESH
               then Rejected else Invalid
  {
    ReachableInv(h, offline, cfg);
    RememberedRefresh(h, offline, cfg, op.r.presented);
  }

  /** A grant without offline access is never refreshed, whatever is presented. */
  lemma OnlineNeverRefreshes(h: History, cfg: Config, op: Op, now: int)
    requires Reachable(h, false, cfg) && op.Renew?
    ensures RenewResult(h, op, now, cfg) == Invalid && Step(h, op, now, cfg) == h.(clock := now)
  {
    ReachableInv(h, false, cfg);
    RememberedRefresh(h, false, cfg, op.r.presented);
  }

  /** A bearer is let in only with an access token minted for this very grant. */
  lemma OnlyMintedAuthenticate(h: History, offline: bool, cfg: Config, token: Token, resource: string, now: int)
    requires Reachable(h, offline, cfg) && Authenticates(h.grant, token, resource, now)
    ensures exists k :: 0 <= k < |h.minted| && h.minted[k].pair.access == token
    ensures token.Access? && token.grantId == h.grant.id && resource == h.grant.resource
  {
    ReachableInv(h, offline, cfg);
    if h.grant.accessHash != Some(Sha(token)) {
      HeldAccess(h, offline, cfg, token);
    }
  }

  lemma {:induction false} SameGrantRun(h: History, ops: seq<(Op, int)>, t: History, cfg: Config)
    requires Run(h, ops, t, cfg)
    ensures t.grant.id == h.grant.id && t.grant.clientId == h.grant.clientId && t.grant.resource == h.grant.resource
    decreases |ops|
  {
    if ops != [] {
      if ops[0].0.Renew? { RenewShape(h, ops[0].0, ops[0].1, cfg); }
      SameGrantRun(Step(h, ops[0].0, ops[0].1, cfg), ops[1..], t, cfg);
    }
  }

  /** A grant stays with the client and resource its code was exchanged for, and an
      offline one is the only kind that rotates. */
  lemma GrantStaysWithItsClient(id: string, clientId: string, resource: string, pair: Pair, offline: bool, at: int,
                                ops: seq<(Op, int)>, h: History, cfg: Config)
    requires WellFormed(id, pair) && Run(Begin(id, clientId, resource, pair, offline, at, cfg), ops, h, cfg)
    ensures h.grant.id == id && h.grant.clientId == clientId && h.grant.resource == resource
    ensures h.minted != [] && h.minted[0] == Mint(pair, at) && (!offline ==> |h.minted| == 1)
  {
    InvBegin(id, clientId, resource, pair, offline, at, cfg);
    InvRun(Begin(id, clientId, resource, pair, offline, at, cfg), ops, h, offline, cfg);
    SameGrantRun(Begin(id, clientId, resource, pair, offline, at, cfg), ops, h, cfg);
    MintedGrows(Begin(id, clientId, resource, pair, offline, at, cfg), ops, h, cfg);
  }

  // --------------------------------------------------- what ends a grant

  /** The k-th refresh token is the one retired last, by a recognised client, and is
      presented again within the grace period. */
  predicate LastRotationInTime(h: History, k: nat, now: int, cfg: Config)
    requires k < |h.minted|
  {
    var n := |h.minted| - 1;
    k == n - 1 && h.grant.replay.Some? && h.minted[n].at <= now <= h.minted[n].at + cfg.graceSeconds
  }

  /** Exactly which presentations of a retired refresh token count as theft. */
  lemma TheftByAge(h: History, offline: bool, cfg: Config, op: Op, now: int, k: nat)
    requires Reachable(h, offline, cfg) && offline && Considered(h, op, now, k)
    requires |h.minted| - 1 - REMEMBERED_REFRESH <= k < |h.minted| - 1
    ensures RenewResult(h, op, now, cfg)
            == if !LastRotationInTime(h, k, now, cfg) then ReuseDetected
               else if op.r.fingerprint != Some(h.grant.replay.value.fingerprint) then Unverified
               else if op.opens then Replayed(h.minted[k + 1].pair)
               else ReuseDetected
  {
    ReachableInv(h, offline, cfg);
    RememberedByAge(h, offline, cfg, op, now, k);
  }

  /** The tokens that can be used to revoke a grant: the live ones, and the retired
      access tokens still remembered. */
  predicate CanRevoke(h: History, offline: bool, cfg: Config, token: Token)
    requires h.minted != []
  {
    var n := |h.minted| - 1;
    || (offline && token == h.minted[n].pair.refresh)
    || exists k :: OldestKept(h.minted, cfg) <= k <= n && token == h.minted[k].pair.access
  }

  lemma HeldAccess(h: History, offline: bool, cfg: Config, token: Token)
    requires Inv(h, offline, cfg)
    ensures (exists j :: 0 <= j < |h.grant.previousAccess| && h.grant.previousAccess[j].hash == Sha(token))
       <==> exists k :: OldestKept(h.minted, cfg) <= k < |h.minted| - 1 && token == h.minted[k].pair.access
  {
    var n, lo := |h.minted| - 1, OldestKept(h.minted, cfg);
    forall j | 0 <= j < n - lo ensures h.grant.previousAccess[j].hash == Sha(h.minted[lo + j].pair.access) {
      EntryAt(h.minted, lo, n, j, cfg);
    }
    if k :| lo <= k < n && token == h.minted[k].pair.access {
      assert h.grant.previousAccess[k - lo].hash == Sha(h.minted[lo + (k - lo)].pair.access);
    }
    if j :| 0 <= j < |h.grant.previousAccess| && h.grant.previousAccess[j].hash == Sha(token) {
      assert token == h.minted[lo + j].pair.access;
    }
  }

  /** Over every reachable state: presenting a token for revocation ends the grant
      exactly if it is one of those; the tokens themselves are left alone. */
  lemma RevokedByToken(h: History, offline: bool, cfg: Config, token: Token, now: int)
    requires Reachable(h, offline, cfg)
    ensures h.minted != []
    ensures var t := Step(h, Revoke(token), now, cfg);
            && (t.grant.revokedAt.Some? <==> h.grant.revokedAt.Some? || CanRevoke(h, offline, cfg, token))
            && t.grant == if CanRevoke(h, offline, cfg, token) then h.grant.(revokedAt := Some(now)) else h.grant
  {
    ReachableInv(h, offline, cfg);
    var n := |h.minted| - 1;
    HeldAccess(h, offline, cfg, token);
    assert OldestKept(h.minted, cfg) <= n;
    if exists k :: OldestKept(h.minted, cfg) <= k <= n && token == h.minted[k].pair.access {
      var k :| OldestKept(h.minted, cfg) <= k <= n && token == h.minted[k].pair.access;
      assert k == n || k < n;
    }
  }

  /** And who else ends it: the client's bulk revocation always, a refresh only as
      theft, a use never. */
  lemma RevokedByOthers(h: History, offline: bool, cfg: Config, op: Op, now: int)
    requires Reachable(h, offline, cfg) && !op.Revoke?
    ensures Step(h, op, now, cfg).grant.revokedAt.Some?
       <==> h.grant.revokedAt.Some? || op.RevokeAll? || (op.Renew? && RenewResult(h, op, now, cfg) == ReuseDetected)
    ensures op.Use? ==> Step(h, op, now, cfg).grant == h.grant.(lastUsedAt := Some(now))
    ensures op.RevokeAll? ==> Step(h, op, now, cfg).grant == h.grant.(revokedAt := Some(OrElse(h.grant.revokedAt, now)))
  {
    if op.Renew? { RenewShape(h, op, now, cfg); }
  }

  // ------------------------------------------------- who is given a retry

  lemma {:induction false} MintedGrows(h: History, ops: seq<(Op, int)>, t: History, cfg: Config)
    requires Run(h, ops, t, cfg)
    ensures h.minted <= t.minted && (t.minted == h.minted ==> t.grant.replay == h.grant.replay) && h.clock <= t.clock
    decreases |ops|
  {
    if ops != [] {
      var mid := Step(h, ops[0].0, ops[0].1, cfg);
      if ops[0].0.Renew? { RenewShape(h, ops[0].0, ops[0].1, cfg); }
      MintedGrows(mid, ops[1..], t, cfg);
    }
  }

  /** The presentation that rotated a token, and a later one of the same token. */
  predicate Again(first: Op, second: Op) {
    first.Renew? && second.Renew? && second.r.presented == first.r.presented
  }

  /** What the later presentation must bring to be given the same pair again. */
  predicate RetryInTime(first: Op, at: int, second: Op, now: int, cfg: Config)
    requires Again(first, second)
  {
    first.r.fingerprint.Some? && second.r.fingerprint == first.r.fingerprint && now - at <= cfg.graceSeconds && second.opens
  }

  /** A state in which `first` is the rotation made last, at `at`. */
  predicate LastRotation(u: History, first: Op, at: int) {
    && first.Renew? && |u.minted| >= 2
    && u.minted[|u.minted| - 2].pair.refresh == first.r.presented && u.minted[|u.minted| - 1] == Mint(first.pair, at)
    && u.grant.replay == if first.r.fingerprint.Some?
                         then Some(Replay(Sha(first.r.presented), first.r.fingerprint.value, at, first.pair)) else None
  }

  lemma RetryOfTheLast(h: History, offline: bool, cfg: Config, first: Op, at: int, second: Op, now: int)
    requires Inv(h, offline, cfg) && LastRotation(h, first, at) && Again(first, second) && Enabled(h, second, now)
    ensures RenewResult(h, second, now, cfg) == Replayed(first.pair)
       <==> Admissible(h.grant, second.r) && !WrongResourceOrExpired(h.grant, second.r, now) && RetryInTime(first, at, second, now, cfg)
  {
    RememberedRefresh(h, offline, cfg, second.r.presented);
    assert Sha(second.r.presented) in h.grant.previousRefresh;
  }

  lemma NoRetryOfOlder(u: History, t: History, offline: bool, cfg: Config, first: Op, at: int, second: Op, now: int)
    requires LastRotation(u, first, at) && Again(first, second) && u.minted < t.minted && Inv(t, offline, cfg)
    ensures !RenewResult(t, second, now, cfg).Replayed?
  {
    var k := |u.minted| - 2;
    assert t.minted[k] == u.minted[k];
    if RenewResult(t, second, now, cfg).Replayed? {
      RetryNamesTheLastRetired(t, offline, cfg, second, now, k);
      assert false;
    }
  }

  lemma RotationIsLast(h: History, offline: bool, cfg: Config, first: Op, at: int)
    requires Inv(h, offline, cfg) && first.Renew? && Enabled(h, first, at) && RenewResult(h, first, at, cfg).Issued?
    ensures var u := Step(h, first, at, cfg);
            Inv(u, offline, cfg) && LastRotation(u, first, at) && u.minted == h.minted + [Mint(first.pair, at)]
  {
    RenewShape(h, first, at, cfg);
    OAuthGrantRuns.InvStep(h, first, at, offline, cfg);
  }

  lemma RetryAfter(u: History, offline: bool, cfg: Config, first: Op, at: int, ops: seq<(Op, int)>, t: History, second: Op, now: int)
    requires Inv(u, offline, cfg) && LastRotation(u, first, at) && Again(first, second)
    requires Run(u, ops, t, cfg) && Enabled(t, second, now)
    ensures RenewResult(t, second, now, cfg) == Replayed(first.pair)
       <==> t.minted == u.minted && Admissible(t.grant, second.r) && !WrongResourceOrExpired(t.grant, second.r, now)
            && RetryInTime(first, at, second, now, cfg)
  {
    InvRun(u, ops, t, offline, cfg);
    MintedGrows(u, ops, t, cfg);
    if t.minted == u.minted {
      RetryOfTheLast(t, offline, cfg, first, at, second, now);
    } else {
      NoRetryOfOlder(u, t, offline, cfg, first, at, second, now);
    }
  }

  /** Over every run: after a refresh token was rotated, and whatever happened since,
      presenting it again is answered with its successor exactly when nothing was
      rotated since, the grant still admits the request, and it comes from the same
      recognised client within the grace period of the rotation. */
  lemma RetryAnsweredExactly(h: History, offline: bool, cfg: Config, first: Op, at: int, ops: seq<(Op, int)>, t: History, second: Op, now: int)
    requires Reachable(h, offline, cfg) && Again(first, second)
    requires Enabled(h, first, at) && RenewResult(h, first, at, cfg).Issued?
    requires Run(Step(h, first, at, cfg), ops, t, cfg) && Enabled(t, second, now)
    ensures RenewResult(t, second, now, cfg) == Replayed(first.pair)
       <==> t.minted == h.minted + [Mint(first.pair, at)]
            && Admissible(t.grant, second.r) && !WrongResourceOrExpired(t.grant, second.r, now)
            && RetryInTime(first, at, second, now, cfg)
  {
    ReachableInv(h, offline, cfg);
    RotationIsLast(h, offline, cfg, first, at);
    RetryAfter(Step(h, first, at, cfg), offline, cfg, first, at, ops, t, second, now);
  }
}
