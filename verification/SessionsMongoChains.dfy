/** The same over the database: what each call of a presentation finds, by the token's
    place in the chain of its session, and that a reported theft has ended it. */
module SessionsMongoChains {
  import opened Base
  import opened RefreshReplay
  import opened Sessions
  import opened SessionRuns
  import opened SessionChains
  import opened SessionsMongo

  /** A reported theft has ended the session; one about to be reported is known. */
  predicate ReportInv(w: World, c: Caller) {
    && (c.HoldsVictim? ==> c.victimId in w.ids)
    && (c.Answered? && c.outcome.Reuse? ==> Dead(w, c.outcome.sessionId))
  }

  ghost predicate FullInv(s: System, cfg: Config) {
    && SysInv(s) && ChainsInv(s.world, cfg)
    && forall id :: id in s.callers ==> ReportInv(s.world, s.callers[id])
  }

  lemma WrittenIsRotation(s: System, id: nat, cfg: Config)
    requires SysInv(s) && id in s.callers && s.callers[id].HoldsCurrent? && SwapTarget(s.world.sessions, s.callers[id].read).Some?
    ensures var HoldsCurrent(r, read, now) := s.callers[id];
            var k := SwapTarget(s.world.sessions, read).value;
            Written(s.world.sessions[k], read, r, now, cfg) == Rotate(s.world.sessions[k], r, now, cfg)
            && s.world.sessions[k].id == read.id && r.minted !in s.world.minted
  {
    assert CallerInv(s.world, s.drawn, s.callers[id]);
  }

  lemma ReportsAfter(s: System, t: System, x: nat)
    requires forall id :: id in s.callers ==> ReportInv(s.world, s.callers[id])
    requires s.world.ids <= t.world.ids && forall id :: Dead(s.world, id) ==> Dead(t.world, id)
    requires forall id :: id in t.callers && id != x ==> id in s.callers && t.callers[id] == s.callers[id]
    requires x in t.callers ==> ReportInv(t.world, t.callers[x])
    ensures forall id :: id in t.callers ==> ReportInv(t.world, t.callers[id])
  {
    forall id | id in t.callers ensures ReportInv(t.world, t.callers[id]) {
      if id != x { assert ReportInv(s.world, s.callers[id]); }
    }
  }

  lemma FullSwap(s: System, x: nat, cfg: Config)
    requires FullInv(s, cfg) && x in s.callers && s.callers[x].HoldsCurrent?
    ensures FullInv(Swap(s, x, cfg), cfg)
  {
    var HoldsCurrent(r, read, now) := s.callers[x];
    var target := SwapTarget(s.world.sessions, read);
    InvSwap(s, x, cfg);
    if target.Some? {
      WrittenIsRotation(s, x, cfg);
      RotatedChains(s.world, target.value, Rotate(s.world.sessions[target.value], r, now, cfg), r, now, cfg);
    }
    forall id | Dead(s.world, id) ensures Dead(Swap(s, x, cfg).world, id) { DeadAfterSwap(s, x, id, cfg); }
    ReportsAfter(s, Swap(s, x, cfg), x);
  }

  lemma VictimIsKnown(s: System, x: nat, now: int, cfg: Config)
    requires SysInv(s) && x in s.callers && s.callers[x].Missed?
    ensures ReportInv(s.world, FindReused(s, x, now, cfg).callers[x])
  {
    var k := FindVictim(s.world.sessions, Sha(s.callers[x].r.presented));
    if k.Some? { assert SessionInv(s.world.sessions[k.value], s.world.ids, s.world.minted, s.world.next); }
  }

  lemma FullFindReused(s: System, x: nat, now: int, cfg: Config)
    requires FullInv(s, cfg) && x in s.callers && s.callers[x].Missed?
    ensures FullInv(FindReused(s, x, now, cfg), cfg)
  {
    InvFindReused(s, x, now, cfg);
    VictimIsKnown(s, x, now, cfg);
    ReportsAfter(s, FindReused(s, x, now, cfg), x);
  }

  lemma FullRevokeReused(s: System, x: nat, cfg: Config)
    requires FullInv(s, cfg) && x in s.callers && s.callers[x].HoldsVictim?
    ensures FullInv(RevokeReused(s, x), cfg)
  {
    var t := RevokeReused(s, x);
    InvRevokeReused(s, x);
    RevokedChains(s.world, t.world.sessions, cfg);
    forall id | Dead(s.world, id) ensures Dead(t.world, id) { DeadAfterRevoke(s, x, id); }
    RevokedIsDead(s, x);
    ReportsAfter(s, t, x);
  }

  lemma RevokedIsDead(s: System, x: nat)
    requires SysInv(s) && x in s.callers && s.callers[x].HoldsVictim? && s.callers[x].victimId in s.world.ids
    ensures Dead(RevokeReused(s, x).world, s.callers[x].victimId)
  {
    var id := s.callers[x].victimId;
    var k := FindId(s.world.sessions, id);
    if k.Some? { FindIdAt(s.world.sessions, k.value); }
  }

  lemma FullElsewhere(s: System, op: Op, now: int, cfg: Config)
    requires FullInv(s, cfg) && !op.Present? && Enabled(s.world, op) && (op.Create? ==> op.token !in s.drawn)
    ensures FullInv(Elsewhere(s, op, now, cfg), cfg)
  {
    var t := Elsewhere(s, op, now, cfg);
    InvElsewhere(s, op, now, cfg);
    ChainsStep(s.world, op, now, cfg);
    forall id | Dead(s.world, id) ensures Dead(t.world, id) { DeadStep(s.world, op, now, id, cfg); }
    forall id | id in t.callers ensures ReportInv(t.world, t.callers[id]) { assert ReportInv(s.world, s.callers[id]); }
  }

  lemma FullBegin(s: System, x: nat, r: Request, cfg: Config)
    requires FullInv(s, cfg) && x !in s.callers && r.minted !in s.drawn
    ensures FullInv(Begin(s, x, r), cfg)
  {
    InvBegin(s, x, r);
    ReportsAfter(s, Begin(s, x, r), x);
  }

  lemma FullLookup(s: System, x: nat, now: int, cfg: Config)
    requires FullInv(s, cfg) && x in s.callers && s.callers[x].Presenting?
    ensures FullInv(SessionsMongo.Lookup(s, x, now), cfg)
  {
    InvLookup(s, x, now);
    ReportsAfter(s, SessionsMongo.Lookup(s, x, now), x);
  }

  lemma FullNext(s: System, t: System, cfg: Config)
    requires FullInv(s, cfg) && Next(s, t, cfg)
    ensures FullInv(t, cfg)
  {
    if x: nat, r: Request :| x !in s.callers && r.minted !in s.drawn && t == Begin(s, x, r) {
      FullBegin(s, x, r, cfg);
    } else if x: nat, now: int :| x in s.callers && s.callers[x].Presenting? && t == SessionsMongo.Lookup(s, x, now) {
      FullLookup(s, x, now, cfg);
    } else if x: nat :| x in s.callers && s.callers[x].HoldsCurrent? && t == Swap(s, x, cfg) {
      FullSwap(s, x, cfg);
    } else if x: nat, now: int :| x in s.callers && s.callers[x].Missed? && t == FindReused(s, x, now, cfg) {
      FullFindReused(s, x, now, cfg);
    } else if x: nat :| x in s.callers && s.callers[x].HoldsVictim? && t == RevokeReused(s, x) {
      FullRevokeReused(s, x, cfg);
    } else {
      var op: Op, now: int :| !op.Present? && Enabled(s.world, op) && (op.Create? ==> op.token !in s.drawn)
                              && t == Elsewhere(s, op, now, cfg);
      FullElsewhere(s, op, now, cfg);
    }
  }

  lemma {:induction false} FullTrace(states: seq<System>, cfg: Config)
    requires Trace(states, cfg)
    ensures FullInv(states[|states| - 1], cfg)
  {
    if |states| > 1 {
      var n := |states| - 1;
      TracePrefix(states, cfg);
      FullTrace(states[..n], cfg);
      FullNext(states[n - 1], states[n], cfg);
    }
  }

  // ------------------------------------------------------------ what it means

  /** However the calls interleave, whoever is told that a token was stolen is told so
      of a session that nothing activates any more. */
  lemma ReportedTheftEnded(states: seq<System>, x: nat, cfg: Config)
    requires Trace(states, cfg)
    requires var s := states[|states| - 1]; x in s.callers && s.callers[x].Answered? && s.callers[x].outcome.Reuse?
    ensures var s := states[|states| - 1];
            var id := s.callers[x].outcome.sessionId;
            Dead(s.world, id) && forall userId, now :: !Active(s.world.sessions, id, userId, now)
  {
    FullTrace(states, cfg);
    assert ReportInv(states[|states| - 1].world, states[|states| - 1].callers[x]);
  }

  /** Between its own calls, logouts end exactly the sessions they are about, as in the
      file store. */
  lemma LoggedOutExactly(states: seq<System>, op: Op, now: int, i: nat, cfg: Config)
    requires Trace(states, cfg) && (op.Logout? || op.LogoutAll?) && i < |states[|states| - 1].world.sessions|
    ensures Elsewhere(states[|states| - 1], op, now, cfg).world == Step(states[|states| - 1].world, op, now, cfg)
    ensures RevokedAsOwed(states[|states| - 1].world, op, now, i, cfg)
  {
    FullTrace(states, cfg);
    RevokedByLogout(states[|states| - 1].world, op, now, i, cfg);
  }

  /** The first lookup finds a stored session by its live token alone. */
  lemma LookupByAge(states: seq<System>, x: nat, now: int, i: nat, k: nat, cfg: Config)
    requires Trace(states, cfg)
    requires var s := states[|states| - 1];
             && x in s.callers && s.callers[x].Presenting? && i < |s.world.sessions|
             && IsLink(s.world.chains, s.world.sessions[i].id, k, s.callers[x].r.presented)
    ensures var s := states[|states| - 1];
            var stored, r := s.world.sessions[i], s.callers[x].r;
            var c := s.world.chains[stored.id];
            SessionsMongo.Lookup(s, x, now).callers[x]
            == if k < |c| - 1 then Missed(r)
               else if stored.revokedAt.None? && now < EndOf(c, cfg) then HoldsCurrent(r, stored, now)
               else Answered(r, Invalid)
  {
    FullTrace(states, cfg);
    var s := states[|states| - 1];
    CurrentIsLast(s.world, cfg, i, k, s.callers[x].r.presented);
    assert ChainInv(s.world.sessions[i], s.world.chains, cfg);
  }

  /** Whoever missed is then answered by the age of the token: for one of the last ten
      of a live session, with the successor if it is the recognised retry of the last
      rotation, and with theft if not. */
  lemma ReusedByAge(states: seq<System>, x: nat, now: int, i: nat, k: nat, cfg: Config)
    requires Trace(states, cfg)
    requires var s := states[|states| - 1];
             && x in s.callers && s.callers[x].Missed? && i < |s.world.sessions|
             && IsLink(s.world.chains, s.world.sessions[i].id, k, s.callers[x].r.presented)
    ensures var s := states[|states| - 1];
            var stored, r := s.world.sessions[i], s.callers[x].r;
            var c := s.world.chains[stored.id];
            var n := |c| - 1;
            FindReused(s, x, now, cfg).callers[x]
            == if k == n || n - k > REMEMBERED || stored.revokedAt.Some? then Answered(r, Invalid)
               else if RecognisedRetry(c, k, r, now, cfg) then Answered(r, Replayed(stored.id, c[n].token))
               else HoldsVictim(r, stored.id, now)
  {
    FullTrace(states, cfg);
    var s := states[|states| - 1];
    VictimRemembers(s.world, cfg, i, k, s.callers[x].r.presented);
    var stored := s.world.sessions[i];
    if stored.revokedAt.None? && k < |s.world.chains[stored.id]| - 1 { RetryOfStored(s.world, s.callers[x].r, now, i, k, cfg); }
  }

  lemma RetryOfStored(w: World, r: Request, now: int, i: nat, k: nat, cfg: Config)
    requires Inv(w) && ChainsInv(w, cfg) && i < |w.sessions| && IsLink(w.chains, w.sessions[i].id, k, r.presented)
    requires w.sessions[i].revokedAt.None? && k < |w.chains[w.sessions[i].id]| - 1
    ensures var s := w.sessions[i];
            var c := w.chains[s.id];
            && (IsRetry(s, r, now, cfg) <==> RecognisedRetry(c, k, r, now, cfg))
            && (IsRetry(s, r, now, cfg) ==> s.replay.value.sealed == c[|c| - 1].token)
  {
    var s, c := w.sessions[i], w.chains[w.sessions[i].id];
    assert ChainInv(s, w.chains, cfg);
    var n := |c| - 1;
    if c[n - 1].token == r.presented { SameSession(w, cfg, i, i, k, n - 1, r.presented); }
  }

  lemma ReportFollows(s: System, x: nat)
    requires x in s.callers && s.callers[x].HoldsVictim?
    ensures RevokeReused(s, x).callers[x] == Answered(s.callers[x].r, Reuse(s.callers[x].victimId))
  {
  }
}
