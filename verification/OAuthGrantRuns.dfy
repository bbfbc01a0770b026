/** What holds of a grant over every run of refreshes, revocations and uses. */
module OAuthGrantRuns {
  import opened Base
  import opened RefreshReplay
  import opened OAuthGrants
  import RevisionLoop

  datatype Op = Renew(r: RefreshRequest, pair: Pair, opens: bool) | Revoke(token: Token) | RevokeAll | Use

  datatype Mint = Mint(pair: Pair, at: int)

  /** A grant, every pair ever minted for it in order, and the last clock reading. */
  datatype History = History(grant: Grant, minted: seq<Mint>, clock: int)

  function Begin(id: string, clientId: string, resource: string, pair: Pair, offline: bool, now: int, cfg: Config): History {
    History(CreateTokens(NewGrant(id, clientId, resource), pair, offline, now, cfg), [Mint(pair, now)], now)
  }

  predicate WellFormed(id: string, pair: Pair) {
    pair.access.Access? && pair.access.grantId == id && pair.refresh.Refresh? && pair.refresh.grantId == id
  }

  predicate NeverMinted(minted: seq<Mint>, pair: Pair) {
    forall i :: 0 <= i < |minted| ==> minted[i].pair.access != pair.access && minted[i].pair.refresh != pair.refresh
  }

  predicate Enabled(h: History, op: Op, now: int) {
    now >= h.clock && (op.Renew? ==> WellFormed(h.grant.id, op.pair) && NeverMinted(h.minted, op.pair))
  }

  function RenewResult(h: History, op: Op, now: int, cfg: Config): RefreshResult
    requires op.Renew?
  {
    RefreshMutator(Some(h.grant), op.r, op.pair, op.opens, now, cfg).result
  }

  function Step(h: History, op: Op, now: int, cfg: Config): History {
    match op
    case Renew(r, pair, opens) =>
      (match RefreshMutator(Some(h.grant), r, pair, opens, now, cfg)
       case Put(g, result) => History(g, if result.Issued? then h.minted + [Mint(pair, now)] else h.minted, now)
       case _ => h.(clock := now))
    case Revoke(token) => h.(grant := RevokeToken(h.grant, token, now), clock := now)
    case RevokeAll => h.(grant := RevokeClient(h.grant, now), clock := now)
    case Use => h.(grant := h.grant.(lastUsedAt := Some(now)), clock := now)
  }

  ghost predicate Run(h: History, ops: seq<(Op, int)>, t: History, cfg: Config)
    decreases |ops|
  {
    if ops == [] then h == t
    else Enabled(h, ops[0].0, ops[0].1) && Run(Step(h, ops[0].0, ops[0].1, cfg), ops[1..], t, cfg)
  }

  // ----------------------------------------------------------- invariant

  /** The retired access tokens numbered `lo` to `hi - 1`. */
  function Entries(minted: seq<Mint>, lo: nat, hi: nat, cfg: Config): (r: seq<OldAccess>)
    requires lo <= hi <= |minted|
    ensures |r| == hi - lo
  {
    if lo == hi then [] else Entries(minted, lo, hi - 1, cfg) + [Entry(minted[hi - 1], cfg)]
  }

  function Entry(m: Mint, cfg: Config): OldAccess {
    OldAccess(Sha(m.pair.access), m.at + cfg.accessTtl)
  }

  predicate Over(m: Mint, now: int, cfg: Config) {
    m.at + cfg.accessTtl <= now
  }

  /** How many of the first `n` access tokens have expired: with a clock that never
      goes back they are the oldest ones. */
  function Expired(minted: seq<Mint>, n: nat, now: int, cfg: Config): (k: nat)
    requires n <= |minted|
    ensures k <= n
  {
    if n == 0 then 0 else if Over(minted[n - 1], now, cfg) then n else Expired(minted, n - 1, now, cfg)
  }

  /** The oldest access token still remembered after the last rotation. */
  function OldestKept(minted: seq<Mint>, cfg: Config): nat
    requires minted != []
  {
    var n := |minted| - 1;
    Max(n - REMEMBERED_ACCESS, Expired(minted, n, minted[n].at, cfg))
  }

  function RefreshHashes(minted: seq<Mint>, lo: nat, hi: nat): (r: seq<Hash>)
    requires lo <= hi <= |minted|
    ensures |r| == hi - lo
  {
    if lo == hi then [] else RefreshHashes(minted, lo, hi - 1) + [Sha(minted[hi - 1].pair.refresh)]
  }

  predicate Chronological(minted: seq<Mint>) {
    forall i, j :: 0 <= i < j < |minted| ==> minted[i].at <= minted[j].at
  }

  ghost predicate MintedInOrder(h: History) {
    && h.minted != [] && h.minted[|h.minted| - 1].at <= h.clock
    && Chronological(h.minted)
    && (forall i, j :: 0 <= i < j < |h.minted| ==> h.minted[i].pair.access != h.minted[j].pair.access
                                                   && h.minted[i].pair.refresh != h.minted[j].pair.refresh)
    && (forall i :: 0 <= i < |h.minted| ==> WellFormed(h.grant.id, h.minted[i].pair))
  }

  /** The retry envelope, when there is one, seals exactly the live pair and names
      the refresh token retired last. */
  ghost predicate ReplayIsLive(h: History)
    requires h.minted != []
  {
    h.grant.replay.Some? ==>
      var n, r := |h.minted| - 1, h.grant.replay.value;
      n > 0 && r.sealed == h.minted[n].pair && r.rotatedAt == h.minted[n].at
      && r.previousHash == Sha(h.minted[n - 1].pair.refresh)
      && |h.grant.previousRefresh| > 0 && r.previousHash == h.grant.previousRefresh[|h.grant.previousRefresh| - 1]
  }

  ghost predicate Inv(h: History, offline: bool, cfg: Config) {
    && MintedInOrder(h)
    && ReplayIsLive(h)
    && var n := |h.minted| - 1;
    && var live := h.minted[n];
    && h.grant.accessHash == Some(Sha(live.pair.access)) && h.grant.accessExpiresAt == live.at + cfg.accessTtl
    && h.grant.refreshHash == (if offline then Some(Sha(live.pair.refresh)) else None)
    && h.grant.refreshExpiresAt == (if offline then Some(live.at + cfg.refreshTtl) else None)
    && h.grant.previousRefresh == RefreshHashes(h.minted, Max(0, n - REMEMBERED_REFRESH), n)
    && h.grant.previousAccess == Entries(h.minted, OldestKept(h.minted, cfg), n, cfg)
    && (!offline ==> n == 0)
  }

  lemma {:induction false} EntryAt(minted: seq<Mint>, lo: nat, hi: nat, k: nat, cfg: Config)
    requires lo <= hi <= |minted| && k < hi - lo
    ensures Entries(minted, lo, hi, cfg)[k] == Entry(minted[lo + k], cfg)
  {
    if k < hi - lo - 1 {
      EntryAt(minted, lo, hi - 1, k, cfg);
    }
  }

  lemma {:induction false} RefreshHashAt(minted: seq<Mint>, lo: nat, hi: nat, k: nat)
    requires lo <= hi <= |minted| && k < hi - lo
    ensures RefreshHashes(minted, lo, hi)[k] == Sha(minted[lo + k].pair.refresh)
  {
    if k < hi - lo - 1 {
      RefreshHashAt(minted, lo, hi - 1, k);
    }
  }

  lemma {:induction false} AllExpired(minted: seq<Mint>, lo: nat, hi: nat, now: int, cfg: Config)
    requires lo <= hi < |minted| && Chronological(minted) && Over(minted[hi], now, cfg)
    ensures Unexpired(Entries(minted, lo, hi, cfg), now) == []
  {
    if lo < hi {
      assert Entries(minted, lo, hi, cfg)[..hi - 1 - lo] == Entries(minted, lo, hi - 1, cfg);
      assert minted[hi - 1].at <= minted[hi].at;
      AllExpired(minted, lo, hi - 1, now, cfg);
    }
  }

  lemma {:induction false} UnexpiredEntries(minted: seq<Mint>, lo: nat, hi: nat, now: int, cfg: Config)
    requires lo <= hi <= |minted| && Chronological(minted)
    ensures Max(lo, Expired(minted, hi, now, cfg)) <= hi
    ensures Unexpired(Entries(minted, lo, hi, cfg), now) == Entries(minted, Max(lo, Expired(minted, hi, now, cfg)), hi, cfg)
  {
    if lo < hi {
      assert Entries(minted, lo, hi, cfg)[..hi - 1 - lo] == Entries(minted, lo, hi - 1, cfg);
      if Over(minted[hi - 1], now, cfg) {
        AllExpired(minted, lo, hi - 1, now, cfg);
      } else {
        UnexpiredEntries(minted, lo, hi - 1, now, cfg);
      }
    }
  }

  lemma {:induction false} DropEntries(minted: seq<Mint>, lo: nat, mid: nat, hi: nat, cfg: Config)
    requires lo <= mid <= hi <= |minted|
    ensures Entries(minted, lo, hi, cfg)[mid - lo..] == Entries(minted, mid, hi, cfg)
  {
    if mid < hi {
      DropEntries(minted, lo, mid, hi - 1, cfg);
    }
  }

  lemma {:induction false} DropRefreshHashes(minted: seq<Mint>, lo: nat, mid: nat, hi: nat)
    requires lo <= mid <= hi <= |minted|
    ensures RefreshHashes(minted, lo, hi)[mid - lo..] == RefreshHashes(minted, mid, hi)
  {
    if mid < hi {
      DropRefreshHashes(minted, lo, mid, hi - 1);
    }
  }

  lemma {:induction false} EntriesOfPrefix(minted: seq<Mint>, more: Mint, lo: nat, hi: nat, cfg: Config)
    requires lo <= hi <= |minted|
    ensures Entries(minted + [more], lo, hi, cfg) == Entries(minted, lo, hi, cfg)
    ensures Expired(minted + [more], hi, more.at, cfg) == Expired(minted, hi, more.at, cfg)
    ensures RefreshHashes(minted + [more], lo, hi) == RefreshHashes(minted, lo, hi)
    decreases hi
  {
    if lo < hi {
      EntriesOfPrefix(minted, more, lo, hi - 1, cfg);
    } else if hi > 0 {
      EntriesOfPrefix(minted, more, hi - 1, hi - 1, cfg);
    }
  }

  lemma {:induction false} ExpiredGrows(minted: seq<Mint>, n: nat, now: int, later: int, cfg: Config)
    requires n <= |minted| && now <= later
    ensures Expired(minted, n, now, cfg) <= Expired(minted, n, later, cfg)
  {
    if n > 0 {
      ExpiredGrows(minted, n - 1, now, later, cfg);
    }
  }

  /** The fifteen youngest of the remembered tokens that have not expired. */
  lemma KeptWindow(minted: seq<Mint>, lo: nat, n: nat, now: int, cfg: Config)
    requires lo <= n <= |minted| && Chronological(minted)
    ensures var from := Max(Max(lo, Expired(minted, n, now, cfg)), n - (REMEMBERED_ACCESS - 1));
            from <= n && StillWorking(Entries(minted, lo, n, cfg), now) == Entries(minted, from, n, cfg)
  {
    UnexpiredEntries(minted, lo, n, now, cfg);
    var lo' := Max(lo, Expired(minted, n, now, cfg));
    DropEntries(minted, lo', Max(lo', n - (REMEMBERED_ACCESS - 1)), n, cfg);
  }

  lemma OldestKeptMoves(minted: seq<Mint>, mint: Mint, cfg: Config)
    requires minted != [] && minted[|minted| - 1].at <= mint.at
    ensures var n := |minted| - 1;
            OldestKept(minted + [mint], cfg)
            == if Over(minted[n], mint.at, cfg) then n + 1
               else Max(Max(OldestKept(minted, cfg), Expired(minted, n, mint.at, cfg)), n - (REMEMBERED_ACCESS - 1))
  {
    var n := |minted| - 1;
    EntriesOfPrefix(minted, mint, n, n, cfg);
    ExpiredGrows(minted, n, minted[n].at, mint.at, cfg);
    assert (minted + [mint])[n] == minted[n] && (minted + [mint])[n + 1] == mint;
  }

  /** Retiring the live access token moves the window of remembered ones. */
  lemma {:induction false} RetiredWindow(h: History, mint: Mint, offline: bool, cfg: Config)
    requires Inv(h, offline, cfg) && mint.at >= h.clock
    ensures var minted := h.minted + [mint];
            OldestKept(minted, cfg) <= |h.minted| && Retire(h.grant, mint.at) == Entries(minted, OldestKept(minted, cfg), |h.minted|, cfg)
  {
    var n := |h.minted| - 1;
    var minted := h.minted + [mint];
    var lo := OldestKept(h.minted, cfg);
    var from := OldestKept(minted, cfg);
    OldestKeptMoves(h.minted, mint, cfg);
    if Over(h.minted[n], mint.at, cfg) {
      AllExpired(h.minted, lo, n, mint.at, cfg);
      assert Retire(h.grant, mint.at) == [];
    } else {
      KeptWindow(h.minted, lo, n, mint.at, cfg);
      EntriesOfPrefix(h.minted, mint, from, n + 1, cfg);
      assert Retire(h.grant, mint.at) == Entries(h.minted, from, n, cfg) + [Entry(h.minted[n], cfg)];
    }
  }

  lemma RotatedFields(g: Grant, r: RefreshRequest, pair: Pair, now: int, cfg: Config)
    requires g.refreshHash.Some?
    ensures Rotate(g, r, pair, now, cfg)
         == Grant(g.id, g.clientId, g.resource, Some(Sha(pair.access)), now + cfg.accessTtl, Retire(g, now),
                  Some(Sha(pair.refresh)), Some(now + cfg.refreshTtl),
                  LastN(g.previousRefresh, REMEMBERED_REFRESH - 1) + [g.refreshHash.value],
                  if r.fingerprint.Some? then Some(Replay(g.refreshHash.value, r.fingerprint.value, now, pair)) else None,
                  g.revokedAt, Some(now))
  {
  }

  lemma RotatedRefreshHashes(h: History, mint: Mint, offline: bool, cfg: Config)
    requires Inv(h, offline, cfg) && offline
    ensures var n := |h.minted|;
            LastN(h.grant.previousRefresh, REMEMBERED_REFRESH - 1) + [h.grant.refreshHash.value]
            == RefreshHashes(h.minted + [mint], Max(0, n - REMEMBERED_REFRESH), n)
  {
    var n := |h.minted| - 1;
    var lo := Max(0, n - REMEMBERED_REFRESH);
    var from := Max(0, n + 1 - REMEMBERED_REFRESH);
    DropRefreshHashes(h.minted, lo, from, n);
    assert LastN(h.grant.previousRefresh, REMEMBERED_REFRESH - 1) == RefreshHashes(h.minted, from, n);
    EntriesOfPrefix(h.minted, mint, from, n + 1, cfg);
  }

  lemma MintedOn(h: History, pair: Pair, now: int, g: Grant)
    requires MintedInOrder(h) && now >= h.clock && WellFormed(h.grant.id, pair) && NeverMinted(h.minted, pair) && g.id == h.grant.id
    ensures MintedInOrder(History(g, h.minted + [Mint(pair, now)], now))
  {
    var t := History(g, h.minted + [Mint(pair, now)], now);
    var n := |h.minted|;
    forall i, j | 0 <= i < j < |t.minted|
      ensures t.minted[i].at <= t.minted[j].at
      ensures t.minted[i].pair.access != t.minted[j].pair.access && t.minted[i].pair.refresh != t.minted[j].pair.refresh
    {
      if j == n { assert h.minted[i].at <= h.minted[n - 1].at; }
    }
  }

  lemma InvRotate(h: History, r: RefreshRequest, pair: Pair, now: int, offline: bool, cfg: Config)
    requires Inv(h, offline, cfg) && offline && now >= h.clock && WellFormed(h.grant.id, pair) && NeverMinted(h.minted, pair)
    ensures Inv(History(Rotate(h.grant, r, pair, now, cfg), h.minted + [Mint(pair, now)], now), offline, cfg)
  {
    RotatedFields(h.grant, r, pair, now, cfg);
    RetiredWindow(h, Mint(pair, now), offline, cfg);
    RotatedRefreshHashes(h, Mint(pair, now), offline, cfg);
    MintedOn(h, pair, now, Rotate(h.grant, r, pair, now, cfg));
  }

  /** A refresh that mints rotates the live token; any other leaves the tokens alone. */
  lemma RenewShape(h: History, op: Op, now: int, cfg: Config)
    requires op.Renew?
    ensures var t := Step(h, op, now, cfg);
            if RenewResult(h, op, now, cfg).Issued?
            then h.grant.refreshHash == Some(Sha(op.r.presented))
                 && t == History(Rotate(h.grant, op.r, op.pair, now, cfg), h.minted + [Mint(op.pair, now)], now)
            else t == h.(clock := now) || t == h.(clock := now, grant := h.grant.(revokedAt := Some(now)))
  {
  }

  lemma InvUntouched(h: History, revokedAt: Option<int>, lastUsedAt: Option<int>, clock: int, offline: bool, cfg: Config)
    requires Inv(h, offline, cfg) && clock >= h.clock
    ensures Inv(h.(grant := h.grant.(revokedAt := revokedAt, lastUsedAt := lastUsedAt), clock := clock), offline, cfg)
  {
  }

  lemma InvStep(h: History, op: Op, now: int, offline: bool, cfg: Config)
    requires Inv(h, offline, cfg) && Enabled(h, op, now)
    ensures Inv(Step(h, op, now, cfg), offline, cfg)
  {
    var t := Step(h, op, now, cfg);
    if op.Renew? {
      RenewShape(h, op, now, cfg);
      if RenewResult(h, op, now, cfg).Issued? {
        InvRotate(h, op.r, op.pair, now, offline, cfg);
      } else {
        InvUntouched(h, t.grant.revokedAt, h.grant.lastUsedAt, now, offline, cfg);
      }
    } else {
      InvUntouched(h, t.grant.revokedAt, t.grant.lastUsedAt, now, offline, cfg);
    }
  }

  lemma {:induction false} BeginFields(id: string, clientId: string, resource: string, pair: Pair, offline: bool, now: int, cfg: Config)
    ensures Begin(id, clientId, resource, pair, offline, now, cfg).grant
         == Grant(id, clientId, resource, Some(Sha(pair.access)), now + cfg.accessTtl, [],
                  if offline then Some(Sha(pair.refresh)) else None, if offline then Some(now + cfg.refreshTtl) else None,
                  [], None, None, None)
  {
    assert Retire(NewGrant(id, clientId, resource), now) == [];
  }

  lemma {:induction false} InvBegin(id: string, clientId: string, resource: string, pair: Pair, offline: bool, now: int, cfg: Config)
    requires WellFormed(id, pair)
    ensures Inv(Begin(id, clientId, resource, pair, offline, now, cfg), offline, cfg)
  {
    BeginFields(id, clientId, resource, pair, offline, now, cfg);
    var h := Begin(id, clientId, resource, pair, offline, now, cfg);
    assert h.minted == [Mint(pair, now)];
    assert OldestKept(h.minted, cfg) == 0;
  }

  lemma {:induction false} InvRun(h: History, ops: seq<(Op, int)>, t: History, offline: bool, cfg: Config)
    requires Inv(h, offline, cfg) && Run(h, ops, t, cfg)
    ensures Inv(t, offline, cfg)
    decreases |ops|
  {
    if ops != [] {
      InvStep(h, ops[0].0, ops[0].1, offline, cfg);
      InvRun(Step(h, ops[0].0, ops[0].1, cfg), ops[1..], t, offline, cfg);
    }
  }
}
