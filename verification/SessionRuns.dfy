/** The file store's sessions over whole runs. */
module SessionRuns {
  import opened Base
  import opened RefreshReplay
  import opened Sessions

  datatype Op =
    | Create(id: string, userId: string, token: string)
    | Present(r: Request)
    | Logout(token: string)
    | LogoutAll(userId: string)
    | Prune

  /** A token of a session, who it was minted for by a rotation, and when. */
  datatype Link = Link(token: string, fingerprint: Option<string>, at: int)

  /** The sessions; and, as history, every id and token ever made, the one successor
      each rotated token was given, and every token of each session in order. */
  datatype World = World(
    sessions: seq<Session>, ids: set<string>, minted: set<string>, next: map<string, string>, chains: map<string, seq<Link>>)

  const EMPTY := World([], {}, {}, map[], map[])

  function Linked(chains: map<string, seq<Link>>, id: string, link: Link): map<string, seq<Link>> {
    chains[id := (if id in chains then chains[id] else []) + [link]]
  }

  predicate Enabled(w: World, op: Op) {
    match op
    case Create(id, _, token) => id !in w.ids && token !in w.minted
    case Present(r) => r.minted !in w.minted
    case _ => true
  }

  function Step(w: World, op: Op, now: int, cfg: Config): World {
    match op
    case Create(id, userId, token) =>
      w.(sessions := w.sessions + [NewSession(id, userId, token, now, cfg)], ids := w.ids + {id}, minted := w.minted + {token},
          chains := w.chains[id := [Link(token, None, now)]])
    case Present(r) =>
      var (sessions, outcome) := RotateEdit(w.sessions, r, now, cfg);
      if outcome.Renewed?
      then w.(sessions := sessions, minted := w.minted + {r.minted}, next := w.next[r.presented := r.minted],
              chains := Linked(w.chains, outcome.sessionId, Link(r.minted, r.fingerprint, now)))
      else w.(sessions := sessions)
    case Logout(token) => w.(sessions := RevokeHolderEdit(w.sessions, token, now))
    case LogoutAll(userId) => w.(sessions := RevokeAllEdit(w.sessions, userId, now))
    case Prune => w.(sessions := PruneEdit(w.sessions, now))
  }

  ghost predicate Run(w: World, ops: seq<(Op, int)>, v: World, cfg: Config)
    decreases |ops|
  {
    if ops == [] then w == v
    else Enabled(w, ops[0].0) && Run(Step(w, ops[0].0, ops[0].1, cfg), ops[1..], v, cfg)
  }

  // ----------------------------------------------------------- invariant

  /** One session against the history: its live token was minted and not rotated,
      the remembered ones were rotated, and the retry envelope holds the successor
      of the token it names. */
  predicate SessionInv(s: Session, ids: set<string>, minted: set<string>, next: map<string, string>) {
    && s.id in ids
    && s.tokenHash.token in minted && s.tokenHash.token !in next
    && (forall h :: h in s.previous ==> h.token in next)
    && (s.replay.Some? ==> s.replay.value.previousHash.token in next
                           && next[s.replay.value.previousHash.token] == s.replay.value.sealed)
  }

  predicate Distinct(sessions: seq<Session>) {
    forall i, j :: 0 <= i < j < |sessions| ==> sessions[i].id != sessions[j].id && sessions[i].tokenHash != sessions[j].tokenHash
  }

  predicate Inv(w: World) {
    && Distinct(w.sessions)
    && (forall k :: 0 <= k < |w.sessions| ==> SessionInv(w.sessions[k], w.ids, w.minted, w.next))
    && w.next.Keys <= w.minted
  }

  /** Rotating one session, given that the new token is fresh. */
  lemma InvAfterRotate(w: World, k: nat, s: Session, r: Request)
    requires Inv(w) && k < |w.sessions| && w.sessions[k].tokenHash == Sha(r.presented) && r.minted !in w.minted
    requires s.id == w.sessions[k].id && s.tokenHash == Sha(r.minted)
    requires forall h :: h in s.previous ==> h in w.sessions[k].previous || h == Sha(r.presented)
    requires s.replay.Some? ==> s.replay.value.previousHash == Sha(r.presented) && s.replay.value.sealed == r.minted
    ensures Inv(w.(sessions := w.sessions[k := s], minted := w.minted + {r.minted}, next := w.next[r.presented := r.minted]))
  {
    var v := w.(sessions := w.sessions[k := s], minted := w.minted + {r.minted}, next := w.next[r.presented := r.minted]);
    forall i | 0 <= i < |v.sessions| ensures SessionInv(v.sessions[i], v.ids, v.minted, v.next) {
      assert SessionInv(w.sessions[i], w.ids, w.minted, w.next);
      assert w.sessions[k].tokenHash.token !in w.next;
    }
    assert v.next.Keys <= v.minted by {
      assert r.presented in w.minted;
    }
  }

  lemma InvAfterRevoke(w: World, sessions: seq<Session>)
    requires Inv(w) && |sessions| == |w.sessions|
    requires forall i :: 0 <= i < |sessions| ==> sessions[i] == w.sessions[i].(revokedAt := sessions[i].revokedAt)
    ensures Inv(w.(sessions := sessions))
  {
  }

  lemma {:induction false} PruneMembers(sessions: seq<Session>, now: int)
    ensures forall s :: s in PruneEdit(sessions, now) <==> s in sessions && !Stale(s, now)
    ensures Distinct(sessions) ==> Distinct(PruneEdit(sessions, now))
  {
    if sessions != [] {
      var n := |sessions| - 1;
      PruneMembers(sessions[..n], now);
      assert sessions == sessions[..n] + [sessions[n]];
      if Distinct(sessions) && !Stale(sessions[n], now) {
        var kept := PruneEdit(sessions[..n], now);
        forall i | 0 <= i < |kept| ensures kept[i].id != sessions[n].id && kept[i].tokenHash != sessions[n].tokenHash {
          assert kept[i] in sessions[..n];
        }
      }
    }
  }

  lemma InvAfterPrune(w: World, now: int)
    requires Inv(w)
    ensures Inv(w.(sessions := PruneEdit(w.sessions, now)))
  {
    PruneMembers(w.sessions, now);
    var kept := PruneEdit(w.sessions, now);
    forall k | 0 <= k < |kept| ensures SessionInv(kept[k], w.ids, w.minted, w.next) {
      assert kept[k] in w.sessions;
    }
  }

  lemma InvCreate(w: World, op: Op, now: int, cfg: Config)
    requires Inv(w) && Enabled(w, op) && op.Create?
    ensures Inv(Step(w, op, now, cfg))
  {
  }

  lemma InvPresent(w: World, r: Request, now: int, cfg: Config)
    requires Inv(w) && Enabled(w, Present(r))
    ensures Inv(Step(w, Present(r), now, cfg))
  {
    var k := FindCurrent(w.sessions, Sha(r.presented));
    if k.Some? {
      InvAfterRotate(w, k.value, Rotate(w.sessions[k.value], r, now, cfg), r);
    } else {
      InvAfterRevoke(w, Step(w, Present(r), now, cfg).sessions);
    }
  }

  lemma InvStep(w: World, op: Op, now: int, cfg: Config)
    requires Inv(w) && Enabled(w, op)
    ensures Inv(Step(w, op, now, cfg))
  {
    match op {
      case Create(_, _, _) => InvCreate(w, op, now, cfg);
      case Present(r) => InvPresent(w, r, now, cfg);
      case Logout(_) => InvAfterRevoke(w, Step(w, op, now, cfg).sessions);
      case LogoutAll(_) => InvAfterRevoke(w, Step(w, op, now, cfg).sessions);
      case Prune => InvAfterPrune(w, now);
    }
  }

  lemma {:induction false} InvRun(w: World, ops: seq<(Op, int)>, v: World, cfg: Config)
    requires Inv(w) && Run(w, ops, v, cfg)
    ensures Inv(v)
    decreases |ops|
  {
    if ops != [] {
      InvStep(w, ops[0].0, ops[0].1, cfg);
      InvRun(Step(w, ops[0].0, ops[0].1, cfg), ops[1..], v, cfg);
    }
  }

  lemma {:induction false} SuccessorsStay(w: World, ops: seq<(Op, int)>, v: World, cfg: Config)
    requires Inv(w) && Run(w, ops, v, cfg)
    ensures forall t :: t in w.next ==> t in v.next && v.next[t] == w.next[t]
    decreases |ops|
  {
    if ops != [] {
      InvStep(w, ops[0].0, ops[0].1, cfg);
      var u := Step(w, ops[0].0, ops[0].1, cfg);
      if ops[0].0.Present? && u.next != w.next {
        var k := FindCurrent(w.sessions, Sha(ops[0].0.r.presented)).value;
        assert SessionInv(w.sessions[k], w.ids, w.minted, w.next);
      }
      SuccessorsStay(u, ops[1..], v, cfg);
    }
  }

  // -------------------------------------------------------- what it means

  predicate GivesToken(o: Rotation) {
    o.Renewed? || o.Replayed?
  }

  lemma AnswerIsSuccessor(w: World, r: Request, now: int, cfg: Config)
    requires Inv(w) && Enabled(w, Present(r)) && GivesToken(RotateEdit(w.sessions, r, now, cfg).1)
    ensures var v := Step(w, Present(r), now, cfg);
            r.presented in v.next && RotateEdit(w.sessions, r, now, cfg).1.token == v.next[r.presented]
  {
    if RotateEdit(w.sessions, r, now, cfg).1.Replayed? {
      var k := FindVictim(w.sessions, Sha(r.presented)).value;
      assert SessionInv(w.sessions[k], w.ids, w.minted, w.next);
    }
  }

  /** Two presentations of one refresh token, with anything in between, never
      yield two different successors. */
  lemma PresentationsAgree(before: seq<(Op, int)>, w: World, r: Request, now: int, between: seq<(Op, int)>, v: World, r': Request, now': int, cfg: Config)
    requires Run(EMPTY, before, w, cfg) && Enabled(w, Present(r))
    requires Run(Step(w, Present(r), now, cfg), between, v, cfg) && Enabled(v, Present(r'))
    requires r.presented == r'.presented
    requires GivesToken(RotateEdit(w.sessions, r, now, cfg).1) && GivesToken(RotateEdit(v.sessions, r', now', cfg).1)
    ensures RotateEdit(w.sessions, r, now, cfg).1.token == RotateEdit(v.sessions, r', now', cfg).1.token
  {
    InvRun(EMPTY, before, w, cfg);
    AnswerIsSuccessor(w, r, now, cfg);
    var u := Step(w, Present(r), now, cfg);
    InvStep(w, Present(r), now, cfg);
    InvRun(u, between, v, cfg);
    SuccessorsStay(u, between, v, cfg);
    AnswerIsSuccessor(v, r', now', cfg);
    InvStep(v, Present(r'), now', cfg);
    SuccessorsStay(v, [(Present(r'), now')], Step(v, Present(r'), now', cfg), cfg);
  }

  lemma FindIdAt(sessions: seq<Session>, k: nat)
    requires Distinct(sessions) && k < |sessions|
    ensures FindId(sessions, sessions[k].id) == Some(k)
  {
  }

  /** A session no longer able to become active again: revoked, or gone. */
  predicate Dead(w: World, id: string) {
    id in w.ids && forall k :: 0 <= k < |w.sessions| && w.sessions[k].id == id ==> w.sessions[k].revokedAt.Some?
  }

  lemma DeadAfterPrune(w: World, now: int, id: string)
    requires Dead(w, id)
    ensures Dead(w.(sessions := PruneEdit(w.sessions, now)), id)
  {
    PruneMembers(w.sessions, now);
    var kept := PruneEdit(w.sessions, now);
    forall k | 0 <= k < |kept| && kept[k].id == id ensures kept[k].revokedAt.Some? { assert kept[k] in w.sessions; }
  }

  lemma DeadStep(w: World, op: Op, now: int, id: string, cfg: Config)
    requires Inv(w) && Enabled(w, op) && Dead(w, id)
    ensures Dead(Step(w, op, now, cfg), id)
  {
    if op.Prune? { DeadAfterPrune(w, now, id); }
  }

  lemma {:induction false} RevokedForGood(w: World, ops: seq<(Op, int)>, v: World, id: string, cfg: Config)
    requires Inv(w) && Run(w, ops, v, cfg) && Dead(w, id)
    ensures Dead(v, id)
    ensures forall userId, now :: !Active(v.sessions, id, userId, now)
    decreases |ops|
  {
    if ops != [] {
      InvStep(w, ops[0].0, ops[0].1, cfg);
      DeadStep(w, ops[0].0, ops[0].1, id, cfg);
      RevokedForGood(Step(w, ops[0].0, ops[0].1, cfg), ops[1..], v, id, cfg);
    }
  }

  predicate Capped(sessions: seq<Session>) {
    forall k :: 0 <= k < |sessions| ==> sessions[k].expiresAt <= sessions[k].absoluteExpiresAt
  }

  /** No number of rotations carries a session past its absolute end, provided the
      configured lifetimes are ordered. */
  lemma {:induction false} NeverPastAbsoluteEnd(w: World, ops: seq<(Op, int)>, v: World, cfg: Config)
    requires Capped(w.sessions) && Run(w, ops, v, cfg) && cfg.refreshTtl <= cfg.absoluteTtl
    ensures Capped(v.sessions)
    decreases |ops|
  {
    if ops != [] {
      var u := Step(w, ops[0].0, ops[0].1, cfg);
      if ops[0].0.Prune? {
        PruneMembers(w.sessions, ops[0].1);
        forall k | 0 <= k < |u.sessions| ensures u.sessions[k].expiresAt <= u.sessions[k].absoluteExpiresAt {
          assert u.sessions[k] in w.sessions;
        }
      }
      NeverPastAbsoluteEnd(u, ops[1..], v, cfg);
    }
  }

  /** The ordering of the lifetimes is needed: only creation can break the cap,
      and it does exactly when the refresh lifetime is the longer one. */
  lemma CapNeedsOrderedLifetimes(id: string, userId: string, token: string, now: int, cfg: Config)
    ensures Capped([NewSession(id, userId, token, now, cfg)]) <==> cfg.refreshTtl <= cfg.absoluteTtl
  {
    assert [NewSession(id, userId, token, now, cfg)][0].expiresAt == now + cfg.refreshTtl;
  }

  lemma FindCurrentAt(sessions: seq<Session>, k: nat)
    requires Distinct(sessions) && k < |sessions|
    ensures FindCurrent(sessions, sessions[k].tokenHash) == Some(k)
  {
  }

  /** The session just created is the one its token finds, and no other one knows that
      token; until it expires it is active for its user alone and its token rotates,
      and the login changes no answer about any other session. */
  lemma CreatedSession(ops: seq<(Op, int)>, w: World, id: string, userId: string, token: string, now: int, r: Request, user: string, other: string, later: int, cfg: Config)
    requires Run(EMPTY, ops, w, cfg) && Enabled(w, Create(id, userId, token)) && r.presented == token && other != id
    ensures var sessions := Step(w, Create(id, userId, token), now, cfg).sessions;
            && (forall k :: 0 <= k < |sessions| && (sessions[k].tokenHash == Sha(token) || Sha(token) in sessions[k].previous) ==> sessions[k].id == id)
            && (Active(sessions, id, user, later) <==> user == userId && later < now + cfg.refreshTtl)
            && (Active(sessions, other, user, later) <==> Active(w.sessions, other, user, later))
            && RotateEdit(sessions, r, later, cfg).1
               == if later < now + Min(cfg.refreshTtl, cfg.absoluteTtl) then Renewed(id, r.minted) else Invalid
  {
    InvRun(EMPTY, ops, w, cfg);
    var created := NewSession(id, userId, token, now, cfg);
    var sessions, n := w.sessions + [created], |w.sessions|;
    InvCreate(w, Create(id, userId, token), now, cfg);
    assert sessions[n] == created;
    FindIdAt(sessions, n);
    FindCurrentAt(sessions, n);
    forall k | 0 <= k < n ensures sessions[k].tokenHash != Sha(token) && Sha(token) !in sessions[k].previous {
      assert SessionInv(w.sessions[k], w.ids, w.minted, w.next);
      assert token !in w.next;
    }
    var k := FindId(w.sessions, other);
    if k.Some? {
      FindIdAt(sessions, k.value);
    } else {
      assert FindId(sessions, other).None?;
    }
  }

  /** Housekeeping never changes whether a session is active, now or later. */
  lemma PruningIsInvisible(w: World, now: int, id: string, userId: string, later: int)
    requires Inv(w) && later >= now
    ensures Active(PruneEdit(w.sessions, now), id, userId, later) == Active(w.sessions, id, userId, later)
  {
    PruneMembers(w.sessions, now);
    var kept := PruneEdit(w.sessions, now);
    forall i | 0 <= i < |kept|
      ensures FindId(w.sessions, kept[i].id).Some? && w.sessions[FindId(w.sessions, kept[i].id).value] == kept[i]
    {
      assert kept[i] in w.sessions;
      var j :| 0 <= j < |w.sessions| && w.sessions[j] == kept[i];
      FindIdAt(w.sessions, j);
    }
    var k := FindId(w.sessions, id);
    if k.Some? && !Stale(w.sessions[k.value], now) {
      assert w.sessions[k.value] in kept;
      var i :| 0 <= i < |kept| && kept[i] == w.sessions[k.value];
      FindIdAt(kept, i);
    }
  }
}
