/** Product sessions in the file store: creation, rotation of the refresh token
    with retry and theft detection, revocation and housekeeping. */
module Sessions {
  import opened Base
  import opened RefreshReplay

  const REMEMBERED := 10
  const WEEK_SECONDS := 7 * 24 * 60 * 60

  /** A digest, by the token it covers. */
  datatype Hash = Sha(token: string)

  datatype Config = Config(refreshTtl: int, absoluteTtl: int, graceSeconds: int)

  datatype Session = Session(
    id: string, userId: string, tokenHash: Hash, previous: seq<Hash>,
    expiresAt: int, absoluteExpiresAt: int, revokedAt: Option<int>, replay: Option<Replay<Hash, string>>)

  datatype Rotation = Renewed(sessionId: string, token: string) | Replayed(sessionId: string, token: string) | Reuse(sessionId: string) | Invalid

  /** A presented token, the client presenting it, what the random generator would
      mint for it, and whether the sealed envelope opens. */
  datatype Request = Request(presented: string, fingerprint: Option<string>, minted: string, opens: bool)

  function NewSession(id: string, userId: string, token: string, now: int, cfg: Config): Session {
    Session(id, userId, Sha(token), [], now + cfg.refreshTtl, now + cfg.absoluteTtl, None, None)
  }

  predicate Usable(s: Session, now: int) {
    s.revokedAt.None? && s.expiresAt > now && s.absoluteExpiresAt > now
  }

  function Rotate(s: Session, r: Request, now: int, cfg: Config): Session {
    s.(previous := LastN(s.previous, REMEMBERED - 1) + [s.tokenHash],
       replay := if r.fingerprint.Some? then Some(Replay(s.tokenHash, r.fingerprint.value, now, r.minted)) else None,
       tokenHash := Sha(r.minted),
       expiresAt := Min(now + cfg.refreshTtl, s.absoluteExpiresAt))
  }

  predicate IsRetry(s: Session, r: Request, now: int, cfg: Config) {
    s.revokedAt.None? && ReplayVerdict(s.replay, Sha(r.presented), r.fingerprint, now, cfg.graceSeconds) == Retry && r.opens
  }

  function FindCurrent(sessions: seq<Session>, hash: Hash): (k: Option<nat>)
    ensures k.None? <==> forall i :: 0 <= i < |sessions| ==> sessions[i].tokenHash != hash
    ensures k.Some? ==> k.value < |sessions| && sessions[k.value].tokenHash == hash
  {
    if sessions == [] then None
    else
      var k := FindCurrent(sessions[..|sessions| - 1], hash);
      if k.Some? then k else if sessions[|sessions| - 1].tokenHash == hash then Some(|sessions| - 1) else None
  }

  function FindVictim(sessions: seq<Session>, hash: Hash): (k: Option<nat>)
    ensures k.None? <==> forall i :: 0 <= i < |sessions| ==> hash !in sessions[i].previous
    ensures k.Some? ==> k.value < |sessions| && hash in sessions[k.value].previous
  {
    if sessions == [] then None
    else
      var k := FindVictim(sessions[..|sessions| - 1], hash);
      if k.Some? then k else if hash in sessions[|sessions| - 1].previous then Some(|sessions| - 1) else None
  }

  function FindId(sessions: seq<Session>, id: string): (k: Option<nat>)
    ensures k.None? <==> forall i :: 0 <= i < |sessions| ==> sessions[i].id != id
    ensures k.Some? ==> k.value < |sessions| && sessions[k.value].id == id
  {
    if sessions == [] then None
    else
      var k := FindId(sessions[..|sessions| - 1], id);
      if k.Some? then k else if sessions[|sessions| - 1].id == id then Some(|sessions| - 1) else None
  }

  function RotateEdit(sessions: seq<Session>, r: Request, now: int, cfg: Config): (seq<Session>, Rotation) {
    match FindCurrent(sessions, Sha(r.presented))
    case Some(k) =>
      var s := sessions[k];
      if !Usable(s, now) then (sessions, Invalid)
      else (sessions[k := Rotate(s, r, now, cfg)], Renewed(s.id, r.minted))
    case None =>
      match FindVictim(sessions, Sha(r.presented))
      case None => (sessions, Invalid)
      case Some(k) =>
        var s := sessions[k];
        if IsRetry(s, r, now, cfg) then (sessions, Replayed(s.id, s.replay.value.sealed))
        else (sessions[k := s.(revokedAt := Some(now))], Reuse(s.id))
  }

  /** The live session a refresh token belongs to. */
  function FindHolder(sessions: seq<Session>, hash: Hash): (k: Option<nat>)
    ensures k.None? <==> forall i :: 0 <= i < |sessions| ==> !(sessions[i].tokenHash == hash && sessions[i].revokedAt.None?)
    ensures k.Some? ==> k.value < |sessions| && sessions[k.value].tokenHash == hash && sessions[k.value].revokedAt.None?
  {
    if sessions == [] then None
    else
      var k := FindHolder(sessions[..|sessions| - 1], hash);
      if k.Some? then k
      else if sessions[|sessions| - 1].tokenHash == hash && sessions[|sessions| - 1].revokedAt.None? then Some(|sessions| - 1) else None
  }

  function RevokeHolderEdit(sessions: seq<Session>, token: string, now: int): seq<Session> {
    match FindHolder(sessions, Sha(token))
    case None => sessions
    case Some(k) => sessions[k := sessions[k].(revokedAt := Some(now))]
  }

  function RevokeOf(s: Session, userId: string, now: int): Session {
    if s.userId == userId && s.revokedAt.None? then s.(revokedAt := Some(now)) else s
  }

  function RevokeAllEdit(sessions: seq<Session>, userId: string, now: int): (r: seq<Session>)
    ensures |r| == |sessions| && forall i :: 0 <= i < |sessions| ==> r[i] == RevokeOf(sessions[i], userId, now)
  {
    if sessions == [] then []
    else RevokeAllEdit(sessions[..|sessions| - 1], userId, now) + [RevokeOf(sessions[|sessions| - 1], userId, now)]
  }

  function CountLive(sessions: seq<Session>, userId: string): nat {
    if sessions == [] then 0
    else
      var last := sessions[|sessions| - 1];
      CountLive(sessions[..|sessions| - 1], userId) + if last.userId == userId && last.revokedAt.None? then 1 else 0
  }

  predicate Stale(s: Session, now: int) {
    s.expiresAt < now - WEEK_SECONDS || (s.revokedAt.Some? && s.revokedAt.value < now - WEEK_SECONDS)
  }

  function PruneEdit(sessions: seq<Session>, now: int): seq<Session> {
    if sessions == [] then []
    else PruneEdit(sessions[..|sessions| - 1], now)
         + if Stale(sessions[|sessions| - 1], now) then [] else [sessions[|sessions| - 1]]
  }

  predicate Active(sessions: seq<Session>, id: string, userId: string, now: int) {
    match FindId(sessions, id)
    case None => false
    case Some(k) => sessions[k].userId == userId && sessions[k].revokedAt.None? && sessions[k].expiresAt > now
  }

  // ------------------------------------------------------------ the store

  class SessionStore {
    var sessions: seq<Session>

    constructor ()
      ensures sessions == []
    {
      sessions := [];
    }

    method CreateSession(id: string, userId: string, token: string, now: int, cfg: Config)
      modifies this
      ensures sessions == old(sessions) + [NewSession(id, userId, token, now, cfg)]
    {
      sessions := sessions + [NewSession(id, userId, token, now, cfg)];
    }

    method RotateSession(r: Request, now: int, cfg: Config) returns (outcome: Rotation)
      modifies this
      ensures (sessions, outcome) == RotateEdit(old(sessions), r, now, cfg)
    {
      var presentedHash := Sha(r.presented);
      var k := FindCurrent(sessions, presentedHash);
      if k.Some? {
        var current := sessions[k.value];
        if current.revokedAt.Some? || current.expiresAt <= now || current.absoluteExpiresAt <= now {
          return Invalid;
        }
        current := current.(previous := LastN(current.previous, REMEMBERED - 1) + [current.tokenHash]);
        current := current.(replay := if r.fingerprint.Some? then Some(Replay(current.tokenHash, r.fingerprint.value, now, r.minted)) else None);
        current := current.(tokenHash := Sha(r.minted), expiresAt := Min(now + cfg.refreshTtl, current.absoluteExpiresAt));
        sessions := sessions[k.value := current];
        return Renewed(current.id, r.minted);
      }
      k := FindVictim(sessions, presentedHash);
      if k.None? { return Invalid; }
      var victim := sessions[k.value];
      if victim.revokedAt.None? && ReplayVerdict(victim.replay, presentedHash, r.fingerprint, now, cfg.graceSeconds) == Retry {
        if r.opens { return Replayed(victim.id, victim.replay.value.sealed); }
      }
      sessions := sessions[k.value := victim.(revokedAt := Some(now))];
      return Reuse(victim.id);
    }

    method RevokeByRefreshToken(token: string, now: int) returns (revoked: bool)
      modifies this
      ensures sessions == RevokeHolderEdit(old(sessions), token, now)
      ensures revoked <==> FindHolder(old(sessions), Sha(token)).Some?
    {
      var k := FindHolder(sessions, Sha(token));
      if k.None? { return false; }
      sessions := sessions[k.value := sessions[k.value].(revokedAt := Some(now))];
      return true;
    }

    method RevokeAllForUser(userId: string, now: int) returns (count: nat)
      modifies this
      ensures sessions == RevokeAllEdit(old(sessions), userId, now)
      ensures count == CountLive(old(sessions), userId)
    {
      count := 0;
      ghost var before := sessions;
      for i := 0 to |sessions|
        invariant |sessions| == |before|
        invariant forall k :: 0 <= k < i ==> sessions[k] == RevokeOf(before[k], userId, now)
        invariant forall k :: i <= k < |before| ==> sessions[k] == before[k]
        invariant count == CountLive(before[..i], userId)
      {
        assert before[..i + 1][..i] == before[..i];
        if sessions[i].userId == userId && sessions[i].revokedAt.None? {
          sessions := sessions[i := sessions[i].(revokedAt := Some(now))];
          count := count + 1;
        }
      }
      assert before[..|sessions|] == before;
    }

    method PruneExpired(now: int) returns (removed: nat)
      modifies this
      ensures sessions == PruneEdit(old(sessions), now) && removed == |old(sessions)| - |sessions|
    {
      removed := 0;
      var kept: seq<Session> := [];
      for i := 0 to |sessions|
        invariant kept == PruneEdit(sessions[..i], now) && removed == i - |kept|
        invariant sessions == old(sessions)
      {
        assert sessions[..i + 1][..i] == sessions[..i];
        var session := sessions[i];
        if session.expiresAt < now - WEEK_SECONDS || (session.revokedAt.Some? && session.revokedAt.value < now - WEEK_SECONDS) {
          removed := removed + 1;
        } else {
          kept := kept + [session];
        }
      }
      assert sessions[..|sessions|] == sessions;
      sessions := kept;
    }
  }
}
