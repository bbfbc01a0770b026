/** OAuth grants: token creation, refresh rotation with retry and reuse
    detection, revocation, and bearer authentication.

    Token digests are modelled by the token they cover. Random secrets are
    modelled by the requirement that a newly minted pair was never minted before. */
module OAuthGrants {
  import opened Base
  import opened RefreshReplay
  import RevisionLoop

  const REMEMBERED_REFRESH := 10
  const REMEMBERED_ACCESS := 16

  datatype Token = Access(grantId: string, secret: string) | Refresh(grantId: string, secret: string)
  datatype Hash = Sha(token: Token)
  datatype Pair = Pair(access: Token, refresh: Token)
  datatype OldAccess = OldAccess(hash: Hash, expiresAt: int)

  datatype Config = Config(accessTtl: nat, refreshTtl: nat, graceSeconds: nat)

  datatype Grant = Grant(
    id: string, clientId: string, resource: string,
    accessHash: Option<Hash>, accessExpiresAt: int, previousAccess: seq<OldAccess>,
    refreshHash: Option<Hash>, refreshExpiresAt: Option<int>, previousRefresh: seq<Hash>,
    replay: Option<Replay<Hash, Pair>>, revokedAt: Option<int>, lastUsedAt: Option<int>)

  function NewGrant(id: string, clientId: string, resource: string): Grant {
    Grant(id, clientId, resource, None, 0, [], None, None, [], None, None, None)
  }

  function Unexpired(tokens: seq<OldAccess>, now: int): seq<OldAccess> {
    if tokens == [] then []
    else Unexpired(tokens[..|tokens| - 1], now)
         + if tokens[|tokens| - 1].expiresAt > now then [tokens[|tokens| - 1]] else []
  }

  function StillWorking(tokens: seq<OldAccess>, now: int): seq<OldAccess> {
    LastN(Unexpired(tokens, now), REMEMBERED_ACCESS - 1)
  }

  /** The older access tokens once the live one is retired. */
  function Retire(g: Grant, now: int): seq<OldAccess> {
    StillWorking(g.previousAccess, now)
    + if g.accessHash.Some? && g.accessExpiresAt > now then [OldAccess(g.accessHash.value, g.accessExpiresAt)] else []
  }

  function CreateTokens(g: Grant, pair: Pair, withRefresh: bool, now: int, cfg: Config): Grant {
    var g1 := g.(previousAccess := Retire(g, now), accessHash := Some(Sha(pair.access)), accessExpiresAt := now + cfg.accessTtl);
    if withRefresh then g1.(refreshHash := Some(Sha(pair.refresh)), refreshExpiresAt := Some(now + cfg.refreshTtl)) else g1
  }

  // -------------------------------------------------------------- refresh

  datatype RefreshRequest = RefreshRequest(clientId: string, presented: Token, resource: Option<string>, fingerprint: Option<string>)

  datatype RefreshResult = Invalid | Rejected | Issued(pair: Pair) | Replayed(pair: Pair) | Unverified | ReuseDetected

  predicate Admissible(g: Grant, r: RefreshRequest) {
    g.clientId == r.clientId && g.revokedAt.None?
  }

  predicate Known(g: Grant, r: RefreshRequest) {
    g.refreshHash == Some(Sha(r.presented)) || Sha(r.presented) in g.previousRefresh
  }

  predicate WrongResourceOrExpired(g: Grant, r: RefreshRequest, now: int) {
    (r.resource.Some? && g.resource != r.resource.value) || (g.refreshExpiresAt.Some? && g.refreshExpiresAt.value <= now)
  }

  function Rotate(g: Grant, r: RefreshRequest, pair: Pair, now: int, cfg: Config): Grant
    requires g.refreshHash.Some?
  {
    var previousHash := g.refreshHash.value;
    var g1 := CreateTokens(g.(previousRefresh := LastN(g.previousRefresh, REMEMBERED_REFRESH - 1) + [previousHash]), pair, true, now, cfg);
    g1.(replay := if r.fingerprint.Some? then Some(Replay(previousHash, r.fingerprint.value, now, pair)) else None,
        lastUsedAt := Some(now))
  }

  /** The refresh mutator. `opens` says whether the sealed envelope opens; `pair`
      is what the random generator would mint. */
  function RefreshMutator(doc: Option<Grant>, r: RefreshRequest, pair: Pair, opens: bool, now: int, cfg: Config)
    : RevisionLoop.Outcome<Grant, RefreshResult>
  {
    if doc.None? || !Admissible(doc.value, r) then RevisionLoop.Throw(Invalid)
    else
      var g := doc.value;
      if WrongResourceOrExpired(g, r, now) then
        if Known(g, r) then RevisionLoop.Put(g, Rejected) else RevisionLoop.Throw(Invalid)
      else if Sha(r.presented) in g.previousRefresh then
        var verdict := ReplayVerdict(g.replay, Sha(r.presented), r.fingerprint, now, cfg.graceSeconds);
        if verdict == Retry && opens then RevisionLoop.Put(g, Replayed(g.replay.value.sealed))
        else if verdict == UnverifiedClient then RevisionLoop.Put(g, Unverified)
        else RevisionLoop.Put(g.(revokedAt := Some(now)), ReuseDetected)
      else if g.refreshHash != Some(Sha(r.presented)) then RevisionLoop.Throw(Invalid)
      else RevisionLoop.Put(Rotate(g, r, pair, now, cfg), Issued(pair))
  }

  // ----------------------------------------- revocation and authentication

  predicate Holds(g: Grant, token: Token) {
    g.accessHash == Some(Sha(token)) || g.refreshHash == Some(Sha(token))
    || exists k :: 0 <= k < |g.previousAccess| && g.previousAccess[k].hash == Sha(token)
  }

  function RevokeToken(g: Grant, token: Token, now: int): Grant {
    if Holds(g, token) then g.(revokedAt := Some(now)) else g
  }

  function RevokeClient(g: Grant, now: int): Grant {
    if g.revokedAt.None? then g.(revokedAt := Some(now)) else g
  }

  predicate Authenticates(g: Grant, token: Token, resource: string, now: int) {
    && token.Access?
    && ((g.accessExpiresAt > now && g.accessHash == Some(Sha(token)))
        || exists k :: 0 <= k < |g.previousAccess| && g.previousAccess[k].expiresAt > now && g.previousAccess[k].hash == Sha(token))
    && g.revokedAt.None? && g.resource == resource
  }

  // ----------------------------------------------- the record, in place

  class GrantRecord {
    const id: string
    const clientId: string
    const resource: string
    var accessHash: Option<Hash>
    var accessExpiresAt: int
    var previousAccess: seq<OldAccess>
    var refreshHash: Option<Hash>
    var refreshExpiresAt: Option<int>
    var previousRefresh: seq<Hash>
    var replay: Option<Replay<Hash, Pair>>
    var revokedAt: Option<int>
    var lastUsedAt: Option<int>

    constructor (id: string, clientId: string, resource: string)
      ensures View() == NewGrant(id, clientId, resource)
    {
      this.id, this.clientId, this.resource := id, clientId, resource;
      accessHash, accessExpiresAt, previousAccess := None, 0, [];
      refreshHash, refreshExpiresAt, previousRefresh := None, None, [];
      replay, revokedAt, lastUsedAt := None, None, None;
    }

    ghost function View(): Grant
      reads this
    {
      Grant(id, clientId, resource, accessHash, accessExpiresAt, previousAccess,
            refreshHash, refreshExpiresAt, previousRefresh, replay, revokedAt, lastUsedAt)
    }

    method CreateGrantTokens(pair: Pair, includeRefreshToken: bool, now: int, cfg: Config)
      modifies this
      ensures View() == CreateTokens(old(View()), pair, includeRefreshToken, now, cfg)
    {
      ghost var g := View();
      previousAccess := StillWorking(previousAccess, now);
      if accessHash.Some? && accessExpiresAt > now {
        previousAccess := previousAccess + [OldAccess(accessHash.value, accessExpiresAt)];
      }
      assert previousAccess == Retire(g, now);
      accessHash, accessExpiresAt := Some(Sha(pair.access)), now + cfg.accessTtl;
      if includeRefreshToken {
        refreshHash, refreshExpiresAt := Some(Sha(pair.refresh)), Some(now + cfg.refreshTtl);
      }
    }

    /** `thrown` is the mutator's own exception, after which nothing is stored. */
    method RefreshWith(r: RefreshRequest, pair: Pair, opens: bool, now: int, cfg: Config) returns (result: RefreshResult, thrown: bool)
      modifies this
      ensures RefreshMutator(Some(old(View())), r, pair, opens, now, cfg)
           == if thrown then RevisionLoop.Throw(result) else RevisionLoop.Put(View(), result)
      ensures thrown ==> View() == old(View())
    {
      if clientId != r.clientId || revokedAt.Some? { return Invalid, true; }
      var presentedHash := Sha(r.presented);
      var knownToken := refreshHash == Some(presentedHash) || presentedHash in previousRefresh;
      if (r.resource.Some? && resource != r.resource.value) || (refreshExpiresAt.Some? && refreshExpiresAt.value <= now) {
        if !knownToken { return Invalid, true; }
        return Rejected, false;
      }
      if presentedHash in previousRefresh {
        var verdict := ReplayVerdict(replay, presentedHash, r.fingerprint, now, cfg.graceSeconds);
        if verdict == Retry && opens {
          return Replayed(replay.value.sealed), false;
        }
        if verdict == UnverifiedClient { return Unverified, false; }
        revokedAt := Some(now);
        return ReuseDetected, false;
      }
      if refreshHash != Some(presentedHash) { return Invalid, true; }
      RotateWith(r, pair, now, cfg);
      return Issued(pair), false;
    }

    method RotateWith(r: RefreshRequest, pair: Pair, now: int, cfg: Config)
      requires refreshHash.Some?
      modifies this
      ensures View() == Rotate(old(View()), r, pair, now, cfg)
    {
      var previousHash := refreshHash.value;
      previousRefresh := LastN(previousRefresh, REMEMBERED_REFRESH - 1) + [previousHash];
      CreateGrantTokens(pair, true, now, cfg);
      replay := if r.fingerprint.Some? then Some(Replay(previousHash, r.fingerprint.value, now, pair)) else None;
      lastUsedAt := Some(now);
    }

    method Revoke(token: Token, now: int)
      modifies this
      ensures View() == RevokeToken(old(View()), token, now)
    {
      var tokenHash := Sha(token);
      var isEarlier := exists k :: 0 <= k < |previousAccess| && previousAccess[k].hash == tokenHash;
      if accessHash == Some(tokenHash) || refreshHash == Some(tokenHash) || isEarlier {
        revokedAt := Some(now);
      }
    }
  }
}
