/** The bulk revocation of a client's grants, which keeps `_rev`, among the other
    writers of one grant: refreshes, single revocations, and the touches that note
    the use of an access token. Each of these runs through the revision loop. */
module OAuthBulkRevocation {
  import opened Base
  import opened RefreshReplay
  import opened OAuthGrants
  import OAuthGrantRuns
  import opened RevisionLoop

  datatype Request =
    | Refreshing(r: RefreshRequest, pair: Pair, opens: bool, now: int)
    | Revoking(token: Token, now: int)
    | Touching(now: int)

  datatype Reply = Refreshed(result: RefreshResult) | Nothing

  function Handle(q: Request, doc: Option<Grant>, cfg: Config): Outcome<Grant, Reply> {
    match q
    case Refreshing(r, pair, opens, now) =>
      (match RefreshMutator(doc, r, pair, opens, now, cfg)
       case Put(g, result) => Put(g, Refreshed(result))
       case Keep(result) => Keep(Refreshed(result))
       case Remove(result) => Remove(Refreshed(result))
       case Throw(result) => Throw(Refreshed(result)))
    case Revoking(token, now) => if doc.None? then Keep(Nothing) else Put(RevokeToken(doc.value, token, now), Nothing)
    case Touching(now) => if doc.None? then Keep(Nothing) else Put(doc.value.(lastUsedAt := Some(now)), Nothing)
  }

  ghost function Mutators(requests: Attempt -> Request, cfg: Config): Attempt -> Mutator<Grant, Reply> {
    turn => (doc: Option<Grant>) => Handle(requests(turn), doc, cfg)
  }

  // ------------------------------------------------- the condition, by guards

  /** Does a caller that read `g` write a grant that is not revoked? A touch always
      does; a revocation does when the token is not one of the grant; a refresh does
      when its token is known and the request is expired or for another resource,
      or its token is the live one, or it is a retry that opens or whose client
      cannot be confirmed. */
  predicate LeavesLive(q: Request, g: Grant, cfg: Config) {
    g.revokedAt.None? &&
    match q
    case Refreshing(r, _, opens, now) =>
      var verdict := ReplayVerdict(g.replay, Sha(r.presented), r.fingerprint, now, cfg.graceSeconds);
      && g.clientId == r.clientId && Known(g, r)
      && (WrongResourceOrExpired(g, r, now) || Sha(r.presented) !in g.previousRefresh
          || verdict == UnverifiedClient || (verdict == Retry && opens))
    case Revoking(token, _) => !Holds(g, token)
    case Touching(_) => true
  }

  function IsRevoked(g: Grant): bool {
    g.revokedAt.Some?
  }

  lemma GuardIsExact(q: Request, g: Grant, cfg: Config)
    ensures var o := Handle(q, Some(g), cfg);
            && (LeavesLive(q, g, cfg) <==> o.Put? && !IsRevoked(o.value))
            && !o.Remove? && (IsRevoked(g) && o.Put? ==> IsRevoked(o.value))
  {
  }

  // ---------------------------------------------------------------- runs

  /** The revocation: one write, for grants not yet revoked, with no new `_rev`. */
  function BulkRevoke<R>(s: State<Grant, R>, now: int): State<Grant, R>
    requires s.doc.Present?
  {
    Overwrite(s, RevokeClient(s.doc.value, now))
  }

  ghost predicate BulkOrNext(ms: Attempt -> Mutator<Grant, Reply>, s: State<Grant, Reply>, t: State<Grant, Reply>) {
    Next(ms, s, t) || exists now: int :: s.doc.Present? && t == BulkRevoke(s, now)
  }

  ghost predicate Run(ms: Attempt -> Mutator<Grant, Reply>, g: Grant, states: seq<State<Grant, Reply>>) {
    && states != [] && states[0] == State(Present(g, 1), [], map[])
    && forall i :: 0 < i < |states| ==> BulkOrNext(ms, states[i - 1], states[i])
  }

  predicate Revoked(doc: Doc<Grant>) {
    doc.Present? && IsRevoked(doc.value)
  }

  /** From `s` to `t` caller `id` writes a live grant over the revoked one, from the
      copy it held before the revocation. */
  ghost predicate Revives(requests: Attempt -> Request, cfg: Config, before: State<Grant, Reply>, s: State<Grant, Reply>, t: State<Grant, Reply>, id: nat) {
    && id in before.calls && before.calls[id].Holding? && id in s.calls && s.calls[id] == before.calls[id]
    && s.doc.Present? && s.doc.rev == s.calls[id].rev
    && LeavesLive(requests(Turn(s, id)), s.calls[id].read, cfg)
    && t == Write(Mutators(requests, cfg)(Turn(s, id)), s, id)
  }

  ghost predicate Revived(requests: Attempt -> Request, cfg: Config, before: State<Grant, Reply>, s: State<Grant, Reply>, t: State<Grant, Reply>) {
    exists id: nat :: Revives(requests, cfg, before, s, t, id)
  }

  ghost predicate RevivedAt(requests: Attempt -> Request, cfg: Config, states: seq<State<Grant, Reply>>, k: nat, i: nat)
    requires k < |states| && i + 1 < |states|
  {
    Revived(requests, cfg, states[k], states[i], states[i + 1])
  }

  lemma MutatorsKeepRevoked(requests: Attempt -> Request, cfg: Config)
    ensures MutatorsKeep(Mutators(requests, cfg), IsRevoked)
  {
    forall turn: Attempt, g: Grant | IsRevoked(g) && Mutators(requests, cfg)(turn)(Some(g)).Put?
      ensures IsRevoked(Mutators(requests, cfg)(turn)(Some(g)).value)
    {
      GuardIsExact(requests(turn), g, cfg);
    }
  }

  lemma RevivesIsUndoes(requests: Attempt -> Request, cfg: Config, before: State<Grant, Reply>, s: State<Grant, Reply>, t: State<Grant, Reply>, id: nat)
    ensures Revives(requests, cfg, before, s, t, id) <==> Undoes(Mutators(requests, cfg), IsRevoked, before, s, t, id)
  {
    if id in s.calls && s.calls[id].Holding? {
      GuardIsExact(requests(Turn(s, id)), s.calls[id].read, cfg);
    }
  }

  lemma RevivedIsUndone(requests: Attempt -> Request, cfg: Config, before: State<Grant, Reply>, s: State<Grant, Reply>, t: State<Grant, Reply>)
    ensures Revived(requests, cfg, before, s, t) <==> Undone(Mutators(requests, cfg), IsRevoked, before, s, t)
  {
    forall id: nat ensures Revives(requests, cfg, before, s, t, id) <==> Undoes(Mutators(requests, cfg), IsRevoked, before, s, t, id) {
      RevivesIsUndoes(requests, cfg, before, s, t, id);
    }
  }

  lemma StaysPresent(requests: Attempt -> Request, cfg: Config, s: State<Grant, Reply>, t: State<Grant, Reply>)
    requires s.doc.Present? && BulkOrNext(Mutators(requests, cfg), s, t)
    ensures t.doc.Present? && StepAt(Mutators(requests, cfg), IsRevoked, [s, t], 0)
  {
    var ms := Mutators(requests, cfg);
    if Next(ms, s, t) {
      var id: nat :|
        || (id !in s.calls && t == Begin(s, id))
        || (id in s.calls && s.calls[id].Ready? && t == Read(ms(Turn(s, id)), s, id))
        || (id in s.calls && s.calls[id].Holding? && t == Write(ms(Turn(s, id)), s, id));
      if id in s.calls && s.calls[id].Holding? { GuardIsExact(requests(Turn(s, id)), s.calls[id].read, cfg); }
    } else {
      var now: int :| t == BulkRevoke(s, now);
      assert IsRevoked(RevokeClient(s.doc.value, now));
    }
  }

  lemma {:induction false} AlwaysPresent(requests: Attempt -> Request, cfg: Config, g: Grant, states: seq<State<Grant, Reply>>, i: nat)
    requires Run(Mutators(requests, cfg), g, states) && i < |states|
    ensures states[i].doc.Present?
  {
    if i > 0 {
      AlwaysPresent(requests, cfg, g, states, i - 1);
      StaysPresent(requests, cfg, states[i - 1], states[i]);
    }
  }

  /** In every run, a grant revoked in bulk stays revoked from then on exactly when
      no caller that had read it before writes it back live. Which callers do is
      decided by what they read and ask for. */
  lemma BulkRevocationIsLost(requests: Attempt -> Request, cfg: Config, g: Grant, states: seq<State<Grant, Reply>>, k: nat, now: int)
    requires Run(Mutators(requests, cfg), g, states) && 0 < k < |states|
    requires states[k - 1].doc.Present? && states[k] == BulkRevoke(states[k - 1], now)
    ensures (forall i :: k <= i < |states| ==> Revoked(states[i].doc))
       <==> (forall i :: k <= i < |states| - 1 ==> !RevivedAt(requests, cfg, states, k, i))
  {
    var ms := Mutators(requests, cfg);
    MutatorsKeepRevoked(requests, cfg);
    forall i | 0 <= i < |states| ensures states[i].doc.Present? {
      AlwaysPresent(requests, cfg, g, states, i);
    }
    forall i | k <= i < |states| - 1 ensures StepAt(ms, IsRevoked, states, i) {
      assert BulkOrNext(ms, states[i + 1 - 1], states[i + 1]);
      StaysPresent(requests, cfg, states[i], states[i + 1]);
    }
    UnbumpedWritesAreLost(ms, IsRevoked, states, k);
    forall i | k <= i < |states| - 1
      ensures UndoneAt(ms, IsRevoked, states, k, i) <==> RevivedAt(requests, cfg, states, k, i)
    {
      RevivedIsUndone(requests, cfg, states[k], states[i], states[i + 1]);
    }
  }

  // ---------------------------------------------------- the losing schedule

  /** A caller reads, the grant is revoked in bulk, the caller writes. */
  ghost function Schedule(m: Mutator<Grant, Reply>, g: Grant, now: int): seq<State<Grant, Reply>>
    requires !m(Some(g)).Throw?
  {
    var s0 := State(Present(g, 1), [], map[]);
    var s1 := Begin(s0, 0);
    var s2 := Read(m, s1, 0);
    var s3 := BulkRevoke(s2, now);
    [s0, s1, s2, s3, Write(m, s3, 0)]
  }

  /** Under this schedule the revocation of any grant is lost exactly when the
      caller leaves what it read live. */
  lemma ScheduleDecides(requests: Attempt -> Request, cfg: Config, g: Grant, now: int)
    requires !Handle(requests(Attempt(0, 0)), Some(g), cfg).Throw?
    ensures var ms := Mutators(requests, cfg);
            var states := Schedule(ms(Attempt(0, 0)), g, now);
            && Run(ms, g, states) && Revoked(states[3].doc)
            && states[2].doc.Present? && states[3] == BulkRevoke(states[2], now)
            && (Revoked(states[4].doc) <==> !LeavesLive(requests(Attempt(0, 0)), g, cfg))
            && states[4].doc == Present(Handle(requests(Attempt(0, 0)), Some(g), cfg).value, 2)
  {
    var ms := Mutators(requests, cfg);
    var states := Schedule(ms(Attempt(0, 0)), g, now);
    GuardIsExact(requests(Attempt(0, 0)), g, cfg);
    assert Next(ms, states[0], states[1]);
    assert Turn(states[1], 0) == Attempt(0, 0) && Next(ms, states[1], states[2]);
    assert BulkOrNext(ms, states[2], states[3]);
    assert Turn(states[3], 0) == Attempt(0, 0) && Next(ms, states[3], states[4]);
  }

  const PAIR := Pair(Access("g", "a"), Refresh("g", "r"))
  const CONFIG := Config(15 * 60, 30 * 24 * 60 * 60, 90)

  /** A grant as its code was just exchanged for it. */
  function FreshGrant(): Grant {
    OAuthGrantRuns.Begin("g", "client", "resource", PAIR, true, 0, CONFIG).grant
  }

  ghost predicate LostBy(q: Request) {
    exists states: seq<State<Grant, Reply>> ::
      && Run(Mutators(_ => q, CONFIG), FreshGrant(), states) && |states| == 5
      && states[2].doc.Present? && states[3] == BulkRevoke(states[2], 1) && Revoked(states[3].doc)
      && states[4].doc.Present? && Authenticates(states[4].doc.value, PAIR.access, "resource", 2)
  }

  lemma LostWhenItStillAuthenticates(q: Request, g: Grant)
    requires Handle(q, Some(FreshGrant()), CONFIG).Put? && g == Handle(q, Some(FreshGrant()), CONFIG).value
    requires Authenticates(g, PAIR.access, "resource", 2)
    ensures LostBy(q)
  {
    var requests: Attempt -> Request := _ => q;
    ScheduleDecides(requests, CONFIG, FreshGrant(), 1);
    var states := Schedule(Mutators(requests, CONFIG)(Attempt(0, 0)), FreshGrant(), 1);
    assert |states| == 5;
  }

  /** A touch a second after the grant was made undoes its revocation, and the
      access token goes on working. */
  lemma TouchUndoesRevocation()
    ensures LostBy(Touching(1))
  {
    OAuthGrantRuns.BeginFields("g", "client", "resource", PAIR, true, 0, CONFIG);
    LostWhenItStillAuthenticates(Touching(1), FreshGrant().(lastUsedAt := Some(1)));
  }

  lemma RetiredStillAuthenticates(r: RefreshRequest, next: Pair)
    ensures FreshGrant().refreshHash == Some(Sha(PAIR.refresh))
    ensures Authenticates(Rotate(FreshGrant(), r, next, 1, CONFIG), PAIR.access, "resource", 2)
  {
    OAuthGrantRuns.BeginFields("g", "client", "resource", PAIR, true, 0, CONFIG);
    var g := Rotate(FreshGrant(), r, next, 1, CONFIG);
    assert g.previousAccess[|g.previousAccess| - 1] == OldAccess(Sha(PAIR.access), 15 * 60);
  }

  /** So does a refresh with the live token; even the access token it retires goes
      on working. */
  lemma RefreshUndoesRevocation(next: Pair)
    ensures LostBy(Refreshing(RefreshRequest("client", PAIR.refresh, None, Some("browser")), next, true, 1))
  {
    var r := RefreshRequest("client", PAIR.refresh, None, Some("browser"));
    OAuthGrantRuns.BeginFields("g", "client", "resource", PAIR, true, 0, CONFIG);
    RetiredStillAuthenticates(r, next);
    LostWhenItStillAuthenticates(Refreshing(r, next, true, 1), Rotate(FreshGrant(), r, next, 1, CONFIG));
  }
}
