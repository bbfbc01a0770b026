/** Session rotation against the database: the lookup, the conditional swap, the
    search for a reused token and the revocation are separate calls, and any
    number of requests interleave with each other, with logins, logouts and
    housekeeping. */
module SessionsMongo {
  import opened Base
  import opened RefreshReplay
  import opened Sessions
  import opened SessionRuns

  datatype Caller =
    | Presenting(r: Request)
    | HoldsCurrent(r: Request, read: Session, now: int)
    | Missed(r: Request)
    | HoldsVictim(r: Request, victimId: string, now: int)
    | Answered(r: Request, outcome: Rotation)

  /** `drawn` are the tokens the random generators have produced so far. */
  datatype System = System(world: World, drawn: set<string>, callers: map<nat, Caller>)

  function Begin(s: System, id: nat, r: Request): System {
    s.(drawn := s.drawn + {r.minted}, callers := s.callers[id := Presenting(r)])
  }

  function Lookup(s: System, id: nat, now: int): System
    requires id in s.callers && s.callers[id].Presenting?
  {
    var r := s.callers[id].r;
    match FindCurrent(s.world.sessions, Sha(r.presented))
    case None => s.(callers := s.callers[id := Missed(r)])
    case Some(k) =>
      var current := s.world.sessions[k];
      s.(callers := s.callers[id := if Usable(current, now) then HoldsCurrent(r, current, now) else Answered(r, Invalid)])
  }

  /** The conditional update: same session, same token hash, not revoked. What it
      writes was computed from the copy that was read. */
  function SwapTarget(sessions: seq<Session>, read: Session): (k: Option<nat>)
    ensures k.Some? ==> k.value < |sessions| && sessions[k.value].id == read.id
                        && sessions[k.value].tokenHash == read.tokenHash && sessions[k.value].revokedAt.None?
    ensures k.None? ==> forall i :: 0 <= i < |sessions| ==>
              !(sessions[i].id == read.id && sessions[i].tokenHash == read.tokenHash && sessions[i].revokedAt.None?)
  {
    if sessions == [] then None
    else
      var n := |sessions| - 1;
      var k := SwapTarget(sessions[..n], read);
      if k.Some? then k
      else if sessions[n].id == read.id && sessions[n].tokenHash == read.tokenHash && sessions[n].revokedAt.None? then Some(n) else None
  }

  function Written(stored: Session, read: Session, r: Request, now: int, cfg: Config): Session {
    stored.(tokenHash := Sha(r.minted),
            previous := LastN(read.previous, REMEMBERED - 1) + [read.tokenHash],
            expiresAt := Min(now + cfg.refreshTtl, read.absoluteExpiresAt),
            replay := if r.fingerprint.Some? then Some(Replay(Sha(r.presented), r.fingerprint.value, now, r.minted)) else None)
  }

  function Swap(s: System, id: nat, cfg: Config): System
    requires id in s.callers && s.callers[id].HoldsCurrent?
  {
    var HoldsCurrent(r, read, now) := s.callers[id];
    var w := s.world;
    match SwapTarget(w.sessions, read)
    case None => s.(callers := s.callers[id := Missed(r)])
    case Some(k) =>
      System(w.(sessions := w.sessions[k := Written(w.sessions[k], read, r, now, cfg)],
                minted := w.minted + {r.minted}, next := w.next[r.presented := r.minted],
                chains := Linked(w.chains, read.id, Link(r.minted, r.fingerprint, now))),
             s.drawn, s.callers[id := Answered(r, Renewed(read.id, r.minted))])
  }

  function FindReused(s: System, id: nat, now: int, cfg: Config): System
    requires id in s.callers && s.callers[id].Missed?
  {
    var r := s.callers[id].r;
    var next :=
      match FindVictim(s.world.sessions, Sha(r.presented))
      case None => Answered(r, Invalid)
      case Some(k) =>
        var victim := s.world.sessions[k];
        if victim.revokedAt.Some? then Answered(r, Invalid)
        else if IsRetry(victim, r, now, cfg) then Answered(r, Replayed(victim.id, victim.replay.value.sealed))
        else HoldsVictim(r, victim.id, now);
    s.(callers := s.callers[id := next])
  }

  function RevokeId(sessions: seq<Session>, id: string, now: int): seq<Session> {
    match FindId(sessions, id)
    case None => sessions
    case Some(k) => if sessions[k].revokedAt.Some? then sessions else sessions[k := sessions[k].(revokedAt := Some(now))]
  }

  function RevokeReused(s: System, id: nat): System
    requires id in s.callers && s.callers[id].HoldsVictim?
  {
    var HoldsVictim(r, victimId, now) := s.callers[id];
    s.(world := s.world.(sessions := RevokeId(s.world.sessions, victimId, now)),
       callers := s.callers[id := Answered(r, Reuse(victimId))])
  }

  /** Logins, logouts and housekeeping are single database calls. */
  function Elsewhere(s: System, op: Op, now: int, cfg: Config): System {
    s.(world := Step(s.world, op, now, cfg), drawn := s.drawn + if op.Create? then {op.token} else {})
  }

  ghost predicate Next(s: System, t: System, cfg: Config) {
    || (exists id: nat, r: Request :: id !in s.callers && r.minted !in s.drawn && t == Begin(s, id, r))
    || (exists id: nat, now: int :: id in s.callers && s.callers[id].Presenting? && t == Lookup(s, id, now))
    || (exists id: nat :: id in s.callers && s.callers[id].HoldsCurrent? && t == Swap(s, id, cfg))
    || (exists id: nat, now: int :: id in s.callers && s.callers[id].Missed? && t == FindReused(s, id, now, cfg))
    || (exists id: nat :: id in s.callers && s.callers[id].HoldsVictim? && t == RevokeReused(s, id))
    || (exists op: Op, now: int :: !op.Present? && Enabled(s.world, op) && (op.Create? ==> op.token !in s.drawn)
                                   && t == Elsewhere(s, op, now, cfg))
  }

  ghost predicate Trace(states: seq<System>, cfg: Config) {
    && states != [] && states[0] == System(EMPTY, {}, map[])
    && forall i :: 0 < i < |states| ==> Next(states[i - 1], states[i], cfg)
  }

  // ----------------------------------------------------------- invariant

  predicate Pending(c: Caller) {
    !c.Answered?
  }

  /** A copy still matching the stored token hash is a true copy of what a
      rotation depends on. */
  predicate TrueCopy(w: World, c: Caller)
    requires c.HoldsCurrent?
  {
    && c.read.tokenHash == Sha(c.r.presented)
    && (forall h :: h in c.read.previous ==> h.token in w.next)
    && c.read.tokenHash.token in w.minted
    && forall k :: 0 <= k < |w.sessions| && w.sessions[k].id == c.read.id && w.sessions[k].tokenHash == c.read.tokenHash ==>
         w.sessions[k].previous == c.read.previous && w.sessions[k].absoluteExpiresAt == c.read.absoluteExpiresAt
  }

  predicate CallerInv(w: World, drawn: set<string>, c: Caller) {
    && (Pending(c) ==> c.r.minted in drawn && c.r.minted !in w.minted)
    && (c.HoldsCurrent? ==> TrueCopy(w, c))
    && (c.Answered? && GivesToken(c.outcome) ==> c.r.presented in w.next && w.next[c.r.presented] == c.outcome.token)
  }

  predicate SysInv(s: System) {
    && Inv(s.world) && s.world.minted <= s.drawn
    && (forall id :: id in s.callers ==> CallerInv(s.world, s.drawn, s.callers[id]))
    && (forall a, b :: a in s.callers && b in s.callers && a != b && Pending(s.callers[a]) && Pending(s.callers[b])
                       ==> s.callers[a].r.minted != s.callers[b].r.minted)
  }

  lemma InvBegin(s: System, id: nat, r: Request)
    requires SysInv(s) && id !in s.callers && r.minted !in s.drawn
    ensures SysInv(Begin(s, id, r))
  {
  }

  lemma InvLookup(s: System, id: nat, now: int)
    requires SysInv(s) && id in s.callers && s.callers[id].Presenting?
    ensures SysInv(Lookup(s, id, now))
  {
    var k := FindCurrent(s.world.sessions, Sha(s.callers[id].r.presented));
    if k.Some? {
      assert SessionInv(s.world.sessions[k.value], s.world.ids, s.world.minted, s.world.next);
    }
  }

  lemma OthersAfterSwap(w: World, drawn: set<string>, c: Caller, k: nat, stored: Session, r: Request)
    requires Inv(w) && CallerInv(w, drawn, c) && k < |w.sessions| && w.sessions[k].tokenHash == Sha(r.presented)
    requires stored.tokenHash == Sha(r.minted) && r.minted !in w.minted
    requires Pending(c) ==> c.r.minted != r.minted
    ensures CallerInv(w.(sessions := w.sessions[k := stored], minted := w.minted + {r.minted}, next := w.next[r.presented := r.minted]), drawn, c)
  {
    assert SessionInv(w.sessions[k], w.ids, w.minted, w.next);
    assert r.presented !in w.next;
  }

  lemma InvSwap(s: System, id: nat, cfg: Config)
    requires SysInv(s) && id in s.callers && s.callers[id].HoldsCurrent?
    ensures SysInv(Swap(s, id, cfg))
  {
    var HoldsCurrent(r, read, now) := s.callers[id];
    var w := s.world;
    assert CallerInv(w, s.drawn, s.callers[id]);
    match SwapTarget(w.sessions, read) {
      case None =>
      case Some(k) =>
        var stored := Written(w.sessions[k], read, r, now, cfg);
        InvAfterRotate(w, k, stored, r);
        var t := Swap(s, id, cfg);
        forall x | x in t.callers ensures CallerInv(t.world, t.drawn, t.callers[x]) {
          if x != id { OthersAfterSwap(w, s.drawn, s.callers[x], k, stored, r); }
        }
    }
  }

  lemma InvFindReused(s: System, id: nat, now: int, cfg: Config)
    requires SysInv(s) && id in s.callers && s.callers[id].Missed?
    ensures SysInv(FindReused(s, id, now, cfg))
  {
    var k := FindVictim(s.world.sessions, Sha(s.callers[id].r.presented));
    if k.Some? {
      assert SessionInv(s.world.sessions[k.value], s.world.ids, s.world.minted, s.world.next);
    }
  }

  lemma InvRevokeReused(s: System, id: nat)
    requires SysInv(s) && id in s.callers && s.callers[id].HoldsVictim?
    ensures SysInv(RevokeReused(s, id))
  {
    InvAfterRevoke(s.world, RevokeReused(s, id).world.sessions);
    var t := RevokeReused(s, id);
    forall x | x in t.callers ensures CallerInv(t.world, t.drawn, t.callers[x]) {
      if x != id { assert CallerInv(s.world, s.drawn, s.callers[x]); }
    }
  }

  lemma InvElsewhere(s: System, op: Op, now: int, cfg: Config)
    requires SysInv(s) && !op.Present? && Enabled(s.world, op) && (op.Create? ==> op.token !in s.drawn)
    ensures SysInv(Elsewhere(s, op, now, cfg))
  {
    InvStep(s.world, op, now, cfg);
    var t := Elsewhere(s, op, now, cfg);
    if op.Prune? { PruneMembers(s.world.sessions, now); }
    forall x | x in t.callers ensures CallerInv(t.world, t.drawn, t.callers[x]) {
      assert CallerInv(s.world, s.drawn, s.callers[x]);
      var c := s.callers[x];
      if c.HoldsCurrent? {
        forall k | 0 <= k < |t.world.sessions| && t.world.sessions[k].id == c.read.id && t.world.sessions[k].tokenHash == c.read.tokenHash
          ensures t.world.sessions[k].previous == c.read.previous && t.world.sessions[k].absoluteExpiresAt == c.read.absoluteExpiresAt
        {
          if op.Prune? { assert t.world.sessions[k] in s.world.sessions; }
        }
      }
    }
  }

  lemma InvNext(s: System, t: System, cfg: Config)
    requires SysInv(s) && Next(s, t, cfg)
    ensures SysInv(t)
  {
    if id: nat, r: Request :| id !in s.callers && r.minted !in s.drawn && t == Begin(s, id, r) {
      InvBegin(s, id, r);
    } else if id: nat, now: int :| id in s.callers && s.callers[id].Presenting? && t == Lookup(s, id, now) {
      InvLookup(s, id, now);
    } else if id: nat :| id in s.callers && s.callers[id].HoldsCurrent? && t == Swap(s, id, cfg) {
      InvSwap(s, id, cfg);
    } else if id: nat, now: int :| id in s.callers && s.callers[id].Missed? && t == FindReused(s, id, now, cfg) {
      InvFindReused(s, id, now, cfg);
    } else if id: nat :| id in s.callers && s.callers[id].HoldsVictim? && t == RevokeReused(s, id) {
      InvRevokeReused(s, id);
    } else {
      var op: Op, now: int :| !op.Present? && Enabled(s.world, op) && (op.Create? ==> op.token !in s.drawn)
                              && t == Elsewhere(s, op, now, cfg);
      InvElsewhere(s, op, now, cfg);
    }
  }

  lemma {:induction false} InvTrace(states: seq<System>, cfg: Config)
    requires Trace(states, cfg)
    ensures SysInv(states[|states| - 1])
  {
    if |states| > 1 {
      var n := |states| - 1;
      InvTrace(states[..n], cfg);
      InvNext(states[n - 1], states[n], cfg);
    }
  }

  // -------------------------------------------------------- what it means

  /** However the database calls interleave, all requests presenting one refresh
      token that are given a token are given the same one. */
  lemma InterleavedPresentationsAgree(states: seq<System>, a: nat, b: nat, cfg: Config)
    requires Trace(states, cfg)
    requires var s := states[|states| - 1];
             && a in s.callers && s.callers[a].Answered? && GivesToken(s.callers[a].outcome)
             && b in s.callers && s.callers[b].Answered? && GivesToken(s.callers[b].outcome)
             && s.callers[a].r.presented == s.callers[b].r.presented
    ensures var s := states[|states| - 1]; s.callers[a].outcome.token == s.callers[b].outcome.token
  {
    InvTrace(states, cfg);
    var s := states[|states| - 1];
    assert CallerInv(s.world, s.drawn, s.callers[a]) && CallerInv(s.world, s.drawn, s.callers[b]);
  }

  /** At most one request mints: a minted successor belongs to a single caller. */
  lemma OneCallerMints(states: seq<System>, a: nat, cfg: Config)
    requires Trace(states, cfg)
    requires var s := states[|states| - 1];
             && a in s.callers && s.callers[a].HoldsCurrent?
             && SwapTarget(s.world.sessions, s.callers[a].read).Some?
    ensures var s := states[|states| - 1]; s.callers[a].r.presented !in s.world.next
  {
    InvTrace(states, cfg);
    var s := states[|states| - 1];
    var k := SwapTarget(s.world.sessions, s.callers[a].read).value;
    assert CallerInv(s.world, s.drawn, s.callers[a]);
    assert SessionInv(s.world.sessions[k], s.world.ids, s.world.minted, s.world.next);
  }

  /** The swap, although computed from a copy read earlier, writes exactly the
      rotation the file store would make of the stored session. */
  lemma SwapIsRotation(states: seq<System>, id: nat, cfg: Config)
    requires Trace(states, cfg)
    requires var s := states[|states| - 1];
             && id in s.callers && s.callers[id].HoldsCurrent?
             && SwapTarget(s.world.sessions, s.callers[id].read).Some?
    ensures var s := states[|states| - 1];
            var HoldsCurrent(r, read, now) := s.callers[id];
            var k := SwapTarget(s.world.sessions, read).value;
            && Written(s.world.sessions[k], read, r, now, cfg) == Rotate(s.world.sessions[k], r, now, cfg)
            && FindCurrent(s.world.sessions, Sha(r.presented)) == Some(k)
  {
    InvTrace(states, cfg);
    var s := states[|states| - 1];
    assert CallerInv(s.world, s.drawn, s.callers[id]);
  }

  lemma DeadAfterSwap(s: System, x: nat, id: string, cfg: Config)
    requires x in s.callers && s.callers[x].HoldsCurrent? && Dead(s.world, id)
    ensures Dead(Swap(s, x, cfg).world, id)
  {
  }

  lemma DeadAfterRevoke(s: System, x: nat, id: string)
    requires x in s.callers && s.callers[x].HoldsVictim? && Dead(s.world, id)
    ensures Dead(RevokeReused(s, x).world, id)
  {
  }

  lemma DeadElsewhere(s: System, op: Op, now: int, id: string, cfg: Config)
    requires SysInv(s) && Enabled(s.world, op) && Dead(s.world, id)
    ensures Dead(Elsewhere(s, op, now, cfg).world, id)
  {
    DeadStep(s.world, op, now, id, cfg);
  }

  lemma DeadStaysDead(s: System, t: System, id: string, cfg: Config)
    requires SysInv(s) && Next(s, t, cfg) && Dead(s.world, id)
    ensures Dead(t.world, id)
  {
    if x: nat :| x in s.callers && s.callers[x].HoldsCurrent? && t == Swap(s, x, cfg) {
      DeadAfterSwap(s, x, id, cfg);
    } else if x: nat :| x in s.callers && s.callers[x].HoldsVictim? && t == RevokeReused(s, x) {
      DeadAfterRevoke(s, x, id);
    } else if op: Op, now: int :| !op.Present? && Enabled(s.world, op) && (op.Create? ==> op.token !in s.drawn)
                                  && t == Elsewhere(s, op, now, cfg) {
      DeadElsewhere(s, op, now, id, cfg);
    }
  }

  lemma TracePrefix(states: seq<System>, cfg: Config)
    requires Trace(states, cfg) && |states| > 1
    ensures Trace(states[..|states| - 1], cfg)
    ensures Next(states[|states| - 2], states[|states| - 1], cfg)
  {
  }

  lemma DeadAtEnd(states: seq<System>, id: string, cfg: Config)
    requires Trace(states, cfg) && |states| > 1 && Dead(states[|states| - 2].world, id)
    ensures Dead(states[|states| - 1].world, id)
  {
    var n := |states| - 1;
    TracePrefix(states, cfg);
    InvTrace(states[..n], cfg);
    assert states[..n][n - 1] == states[n - 1];
    DeadStaysDead(states[n - 1], states[n], id, cfg);
  }

  lemma {:induction false} DeadFrom(states: seq<System>, i: nat, id: string, cfg: Config)
    requires Trace(states, cfg) && i < |states| && Dead(states[i].world, id)
    ensures Dead(states[|states| - 1].world, id)
  {
    if i < |states| - 1 {
      var before := states[..|states| - 1];
      TracePrefix(states, cfg);
      assert before[i] == states[i] && before[|before| - 1] == states[|states| - 2];
      DeadFrom(before, i, id, cfg);
      DeadAtEnd(states, id, cfg);
    }
  }

  /** No interleaving revives a revoked session. */
  lemma InterleavedRevokedForGood(states: seq<System>, i: nat, id: string, userId: string, now: int, cfg: Config)
    requires Trace(states, cfg) && i < |states| && Dead(states[i].world, id)
    ensures !Active(states[|states| - 1].world.sessions, id, userId, now)
  {
    DeadFrom(states, i, id, cfg);
  }

  lemma CappedAfterSwap(s: System, x: nat, cfg: Config)
    requires SysInv(s) && x in s.callers && s.callers[x].HoldsCurrent? && Capped(s.world.sessions)
    ensures Capped(Swap(s, x, cfg).world.sessions)
  {
    assert CallerInv(s.world, s.drawn, s.callers[x]);
  }

  lemma CappedElsewhere(s: System, op: Op, now: int, cfg: Config)
    requires !op.Present? && Enabled(s.world, op) && Capped(s.world.sessions) && cfg.refreshTtl <= cfg.absoluteTtl
    ensures Capped(Elsewhere(s, op, now, cfg).world.sessions)
  {
    var v := Step(s.world, op, now, cfg);
    assert [(op, now)][1..] == [];
    assert Run(v, [], v, cfg) && Run(s.world, [(op, now)], v, cfg);
    NeverPastAbsoluteEnd(s.world, [(op, now)], v, cfg);
  }

  lemma CappedNext(s: System, t: System, cfg: Config)
    requires SysInv(s) && Next(s, t, cfg) && Capped(s.world.sessions) && cfg.refreshTtl <= cfg.absoluteTtl
    ensures Capped(t.world.sessions)
  {
    if x: nat :| x in s.callers && s.callers[x].HoldsCurrent? && t == Swap(s, x, cfg) {
      CappedAfterSwap(s, x, cfg);
    } else if op: Op, now: int :| !op.Present? && Enabled(s.world, op) && (op.Create? ==> op.token !in s.drawn)
                                  && t == Elsewhere(s, op, now, cfg) {
      CappedElsewhere(s, op, now, cfg);
    }
  }

  /** However the calls interleave, no session is carried past its absolute end: the
      swap caps by the copy it read, which is still true when it writes. */
  lemma {:induction false} InterleavedNeverPastAbsoluteEnd(states: seq<System>, cfg: Config)
    requires Trace(states, cfg) && cfg.refreshTtl <= cfg.absoluteTtl
    ensures Capped(states[|states| - 1].world.sessions)
  {
    if |states| > 1 {
      var n := |states| - 1;
      TracePrefix(states, cfg);
      InvTrace(states[..n], cfg);
      InterleavedNeverPastAbsoluteEnd(states[..n], cfg);
      CappedNext(states[n - 1], states[n], cfg);
    }
  }
}
