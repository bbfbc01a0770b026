/** Whole runs of the bridge hub: who is connected, who may touch which workspace,
    and how often a request is answered. */
module HubRuns {
  import opened Base
  import opened Hub
  import WorkspaceIndex

  datatype Op =
    | Connect(agent: string, userId: string)
    | SocketEnds(agent: string)
    | Leave(agent: string)
    | Opened(agent: string, f: OpenFrame, existing: Option<string>, newId: string)
    | Selected(agent: string, workspace: string)
    | Indexed(agent: string, workspace: string, events: seq<WorkspaceIndex.Event>)
    | Closed(agent: string, workspace: string)
    | Asked(agent: string, request: nat)
    | Responded(agent: string, request: nat, ok: bool)
    | TimerFired(agent: string, request: nat)

  /** Ids are drawn fresh, frames come from agents the hub holds, a timer exists only
      while its request waits. */
  predicate Enabled(s: State, op: Op) {
    match op
    case Connect(a, _) => a !in s.connections
    case SocketEnds(a) => a in s.connections
    case Leave(a) => a in s.agents && a in s.connections
    case Opened(a, f, existing, newId) =>
      && a in s.agents && a in s.connections && newId !in s.workspaceIds
      && (if existing.Some? then existing.value in s.workspaces && Matches(s.workspaces[existing.value], s.connections[a].userId, a, f)
          else NothingMatches(s, a, f))
    case Selected(a, _) => a in s.agents
    case Indexed(a, _, _) => a in s.agents
    case Closed(a, _) => a in s.agents
    case Asked(a, r) => a in s.connections && r !in s.issued
    case Responded(a, _, _) => a in s.agents && a in s.connections
    case TimerFired(a, r) => a in s.connections && r in s.connections[a].pending
  }

  function Step(s: State, op: Op): State
    requires Enabled(s, op)
  {
    match op
    case Connect(a, userId) => Accept(s, a, userId)
    case SocketEnds(a) => s.(connections := s.connections[a := s.connections[a].(open := false)])
    case Leave(a) => Disconnect(s, a)
    case Opened(a, f, existing, newId) => Open(s, a, f, existing, newId)
    case Selected(a, w) => Select(s, a, w)
    case Indexed(a, w, events) => IndexFrame(s, a, w, events)
    case Closed(a, w) => CloseWorkspace(s, a, w)
    case Asked(a, r) => Request(s, a, r)
    case Responded(a, r, ok) => Settle(s, a, r, if ok then Resolved else Rejected)
    case TimerFired(a, r) => Settle(s, a, r, TimedOut)
  }

  predicate Run(s: State, ops: seq<Op>, t: State)
    decreases |ops|
  {
    if ops == [] then s == t else Enabled(s, ops[0]) && Run(Step(s, ops[0]), ops[1..], t)
  }

  // ----------------------------------------------------------- invariant

  predicate IsAgentOf(s: State, a: string, userId: string) {
    a in s.agents && a in s.connections && s.connections[a].userId == userId
  }

  /** The per-user sets are the exact inverse of the agent map, none of them empty. */
  predicate UsersInv(s: State) {
    && s.agents <= s.connections.Keys
    && (forall u :: u in s.byUser ==> s.byUser[u] != {} && forall a :: a in s.byUser[u] ==> IsAgentOf(s, a, u))
    && (forall a :: a in s.agents ==> s.connections[a].userId in s.byUser && a in s.byUser[s.connections[a].userId])
  }

  /** Every open workspace is served by a connected agent of its own user. */
  predicate ServedInv(s: State) {
    && s.workspaces.Keys <= s.workspaceIds
    && forall w :: w in s.workspaces ==> IsAgentOf(s, s.workspaces[w].agentId, s.workspaces[w].userId)
  }

  predicate BothSelected(v: Workspace, w: Workspace) {
    v.agentId == w.agentId && v.selected && w.selected
  }

  predicate OneSelected(workspaces: map<string, Workspace>) {
    forall v, w :: v in workspaces && w in workspaces && BothSelected(workspaces[v], workspaces[w]) ==> v == w
  }

  /** The frame that would open this workspace again. */
  predicate SameIdentity(v: Workspace, w: Workspace) {
    && v.agentId == w.agentId && v.localId == w.localId
    && (v.localId != "" || (v.rootPath == w.rootPath && v.kind == w.kind && (v.kind != "file" || v.singleFile == w.singleFile)))
  }

  predicate DistinctIdentities(workspaces: map<string, Workspace>) {
    forall v, w :: v in workspaces && w in workspaces && SameIdentity(workspaces[v], workspaces[w]) ==> v == w
  }

  predicate ConnectionInv(s: State, a: string)
    requires a in s.connections
  {
    && (a !in s.agents ==> s.connections[a].pending == {} && !s.connections[a].open)
    && (forall r :: r in s.connections[a].pending ==> r in s.issued && s.settled[r] == 0)
  }

  predicate Waiting(s: State, r: nat) {
    exists a :: a in s.connections && r in s.connections[a].pending
  }

  predicate RequestInv(s: State, r: nat) {
    && s.settled[r] <= 1 && (r in s.answers <==> s.settled[r] == 1)
    && (r in s.issued ==> s.settled[r] == 1 || Waiting(s, r))
    && (r !in s.issued ==> s.settled[r] == 0)
  }

  ghost predicate RequestsInv(s: State) {
    && (forall a :: a in s.connections ==> ConnectionInv(s, a))
    && (forall a, b, r :: a in s.connections && b in s.connections && r in s.connections[a].pending && r in s.connections[b].pending ==> a == b)
    && (forall r: nat :: RequestInv(s, r))
  }

  ghost predicate Inv(s: State) {
    UsersInv(s) && ServedInv(s) && OneSelected(s.workspaces) && DistinctIdentities(s.workspaces) && RequestsInv(s)
  }

  // ------------------------------------------------ users and workspaces

  predicate WorkspacesInv(s: State) {
    ServedInv(s) && OneSelected(s.workspaces) && DistinctIdentities(s.workspaces)
  }

  lemma UsersConnect(s: State, a: string, userId: string)
    requires UsersInv(s) && a !in s.connections
    ensures UsersInv(Accept(s, a, userId))
  {
  }

  lemma UsersLeave(s: State, a: string)
    requires UsersInv(s) && a in s.agents && a in s.connections
    ensures UsersInv(Disconnect(s, a))
  {
    var t := Disconnect(s, a);
    var userId := s.connections[a].userId;
    forall b | b in t.agents ensures t.connections[b].userId in t.byUser && b in t.byUser[t.connections[b].userId] {
      assert b in s.byUser[s.connections[b].userId];
    }
  }

  /** Only who is connected, and as whom, matters to the user sets. */
  lemma UsersFrame(s: State, t: State)
    requires UsersInv(s) && t.agents == s.agents && t.byUser == s.byUser && s.connections.Keys == t.connections.Keys
    requires forall a :: a in s.connections ==> t.connections[a].userId == s.connections[a].userId
    ensures UsersInv(t)
  {
  }

  lemma UsersRequest(s: State, a: string, r: nat, answer: Answer)
    requires UsersInv(s) && a in s.connections
    ensures UsersInv(Request(s, a, r)) && UsersInv(Settle(s, a, r, answer))
  {
    UsersFrame(s, Request(s, a, r));
    UsersFrame(s, Settle(s, a, r, answer));
  }

  lemma UsersWorkspaces(s: State, workspaces: map<string, Workspace>, ids: set<string>)
    requires UsersInv(s)
    ensures UsersInv(s.(workspaces := workspaces, workspaceIds := ids))
  {
  }

  lemma UsersStep(s: State, op: Op)
    requires UsersInv(s) && Enabled(s, op)
    ensures UsersInv(Step(s, op))
  {
    match op {
      case Connect(a, u) => UsersConnect(s, a, u);
      case Leave(a) => UsersLeave(s, a);
      case SocketEnds(a) => UsersFrame(s, Step(s, op));
      case Asked(a, r) => UsersRequest(s, a, r, TimedOut);
      case Responded(a, r, ok) => UsersRequest(s, a, r, if ok then Resolved else Rejected);
      case TimerFired(a, r) => UsersRequest(s, a, r, TimedOut);
      case Opened(a, f, existing, newId) => UsersWorkspaces(s, Open(s, a, f, existing, newId).workspaces, Open(s, a, f, existing, newId).workspaceIds);
      case Selected(a, w) => UsersWorkspaces(s, Select(s, a, w).workspaces, s.workspaceIds);
      case Indexed(a, w, events) => UsersWorkspaces(s, IndexFrame(s, a, w, events).workspaces, s.workspaceIds);
      case Closed(a, w) => UsersWorkspaces(s, CloseWorkspace(s, a, w).workspaces, s.workspaceIds);
    }
  }

  lemma SelectOnlyKeeps(workspaces: map<string, Workspace>, a: string, id: string)
    requires DistinctIdentities(workspaces) && OneSelected(workspaces)
    ensures DistinctIdentities(SelectOnly(workspaces, a, id)) && OneSelected(SelectOnly(workspaces, a, id))
  {
  }

  lemma NewIdentity(workspaces: map<string, Workspace>, id: string, w: Workspace)
    requires DistinctIdentities(workspaces) && OneSelected(workspaces) && id !in workspaces && !w.selected
    requires forall v :: v in workspaces ==> !SameIdentity(workspaces[v], w) && !SameIdentity(w, workspaces[v])
    ensures DistinctIdentities(workspaces[id := w]) && OneSelected(workspaces[id := w])
  {
  }

  lemma ReindexKeeps(workspaces: map<string, Workspace>, id: string, index: WorkspaceIndex.Index)
    requires DistinctIdentities(workspaces) && OneSelected(workspaces) && id in workspaces
    ensures var after := workspaces[id := workspaces[id].(index := index)]; DistinctIdentities(after) && OneSelected(after)
  {
  }

  lemma MatchIsIdentity(s: State, a: string, f: OpenFrame)
    requires a in s.agents && a in s.connections && ServedInv(s) && NothingMatches(s, a, f)
    ensures forall v :: v in s.workspaces ==>
      !SameIdentity(s.workspaces[v], NewWorkspace(s.connections[a].userId, a, f))
      && !SameIdentity(NewWorkspace(s.connections[a].userId, a, f), s.workspaces[v])
  {
    forall v | v in s.workspaces
      ensures !SameIdentity(s.workspaces[v], NewWorkspace(s.connections[a].userId, a, f))
              && !SameIdentity(NewWorkspace(s.connections[a].userId, a, f), s.workspaces[v])
    {
      assert IsAgentOf(s, s.workspaces[v].agentId, s.workspaces[v].userId);
      assert !Matches(s.workspaces[v], s.connections[a].userId, a, f);
    }
  }

  lemma OpenedStep(s: State, a: string, f: OpenFrame, existing: Option<string>, newId: string)
    requires WorkspacesInv(s) && Enabled(s, Opened(a, f, existing, newId))
    ensures WorkspacesInv(Step(s, Opened(a, f, existing, newId)))
  {
    if KnownKind(f) {
      if existing.Some? {
        var w := s.workspaces[existing.value];
        if !Rebinds(w, f) {
          ReindexKeeps(s.workspaces, existing.value, WorkspaceIndex.Cleared(w.index));
          SelectOnlyKeeps(s.workspaces[existing.value := w.(index := WorkspaceIndex.Cleared(w.index))], a, existing.value);
        }
      } else {
        var w := NewWorkspace(s.connections[a].userId, a, f);
        MatchIsIdentity(s, a, f);
        NewIdentity(s.workspaces, newId, w);
        SelectOnlyKeeps(s.workspaces[newId := w], a, newId);
      }
    }
  }

  lemma WorkspacesLeave(s: State, a: string)
    requires UsersInv(s) && WorkspacesInv(s) && a in s.agents && a in s.connections
    ensures WorkspacesInv(Disconnect(s, a))
  {
  }

  /** Connections may change, as long as every agent stays who it is. */
  lemma WorkspacesFrame(s: State, t: State)
    requires WorkspacesInv(s) && t.workspaces == s.workspaces && t.workspaceIds == s.workspaceIds && s.agents <= t.agents
    requires forall a :: a in s.agents && a in s.connections ==> a in t.connections && t.connections[a].userId == s.connections[a].userId
    ensures WorkspacesInv(t)
  {
    forall w | w in t.workspaces ensures IsAgentOf(t, t.workspaces[w].agentId, t.workspaces[w].userId) {
      assert IsAgentOf(s, s.workspaces[w].agentId, s.workspaces[w].userId);
    }
  }

  lemma SelectedStep(s: State, a: string, w: string)
    requires WorkspacesInv(s)
    ensures WorkspacesInv(Select(s, a, w))
  {
    SelectOnlyKeeps(s.workspaces, a, w);
  }

  lemma IndexedStep(s: State, a: string, w: string, events: seq<WorkspaceIndex.Event>)
    requires WorkspacesInv(s)
    ensures WorkspacesInv(IndexFrame(s, a, w, events))
  {
    if Serves(s, a, w) { ReindexKeeps(s.workspaces, w, WorkspaceIndex.Run(s.workspaces[w].index, events)); }
  }

  lemma ClosedStep(s: State, a: string, w: string)
    requires WorkspacesInv(s)
    ensures WorkspacesInv(CloseWorkspace(s, a, w))
  {
  }

  lemma WorkspacesStep(s: State, op: Op)
    requires UsersInv(s) && WorkspacesInv(s) && Enabled(s, op)
    ensures WorkspacesInv(Step(s, op))
  {
    match op {
      case Opened(a, f, existing, newId) => OpenedStep(s, a, f, existing, newId);
      case Selected(a, w) => SelectedStep(s, a, w);
      case Indexed(a, w, events) => IndexedStep(s, a, w, events);
      case Closed(a, w) => ClosedStep(s, a, w);
      case Leave(a) => WorkspacesLeave(s, a);
      case _ => WorkspacesFrame(s, Step(s, op));
    }
  }

  // -------------------------------------------------------------- requests

  lemma RequestsSettle(s: State, a: string, r: nat, answer: Answer)
    requires RequestsInv(s) && a in s.connections
    ensures RequestsInv(Settle(s, a, r, answer))
  {
    var t := Settle(s, a, r, answer);
    if r in s.connections[a].pending {
      assert ConnectionInv(s, a);
      forall b | b in t.connections ensures ConnectionInv(t, b) { assert ConnectionInv(s, b); }
      forall q: nat ensures RequestInv(t, q) {
        assert RequestInv(s, q);
        if q != r && Waiting(s, q) {
          var b :| b in s.connections && q in s.connections[b].pending;
          assert q in t.connections[b].pending;
        }
      }
    }
  }

  lemma RequestsAsk(s: State, a: string, r: nat)
    requires RequestsInv(s) && a in s.connections && r !in s.issued && (a !in s.agents ==> !s.connections[a].open)
    ensures RequestsInv(Request(s, a, r))
  {
    var t := Request(s, a, r);
    assert RequestInv(s, r);
    forall b | b in t.connections ensures ConnectionInv(t, b) { assert ConnectionInv(s, b); }
    forall b | b in s.connections ensures r !in s.connections[b].pending { assert ConnectionInv(s, b); }
    forall q: nat ensures RequestInv(t, q) {
      assert RequestInv(s, q);
      if q == r {
        if s.connections[a].open { assert r in t.connections[a].pending; }
      } else if Waiting(s, q) {
        var b :| b in s.connections && q in s.connections[b].pending;
        assert q in t.connections[b].pending;
      }
    }
  }

  lemma {:induction false} AbortedRequest(s: State, a: string, q: nat)
    requires RequestsInv(s) && a in s.connections
    ensures RequestInv(AbortAll(s, a), q)
  {
    var t := AbortAll(s, a);
    assert ConnectionInv(s, a) && RequestInv(s, q);
    if q !in s.connections[a].pending && Waiting(s, q) {
      var b :| b in s.connections && q in s.connections[b].pending;
      assert q in t.connections[b].pending;
    }
  }

  lemma AbortedConnection(s: State, a: string, b: string)
    requires RequestsInv(s) && a in s.connections && b in s.connections
    ensures ConnectionInv(AbortAll(s, a).(agents := s.agents - {a}), b)
  {
    assert ConnectionInv(s, a) && ConnectionInv(s, b);
  }

  lemma RequestsAbort(s: State, a: string)
    requires RequestsInv(s) && a in s.connections
    ensures RequestsInv(AbortAll(s, a).(agents := s.agents - {a}))
  {
    var t := AbortAll(s, a).(agents := s.agents - {a});
    forall b | b in t.connections ensures ConnectionInv(t, b) { AbortedConnection(s, a, b); }
    forall q: nat ensures RequestInv(t, q) {
      AbortedRequest(s, a, q);
      if Waiting(AbortAll(s, a), q) {
        var b :| b in t.connections && q in AbortAll(s, a).connections[b].pending;
        assert q in t.connections[b].pending;
      }
    }
  }

  /** Only these fields matter to the requests. */
  lemma RequestsFrame(s: State, t: State)
    requires RequestsInv(s)
    requires t.connections == s.connections && t.agents == s.agents && t.issued == s.issued && t.settled == s.settled && t.answers == s.answers
    ensures RequestsInv(t)
  {
    forall b | b in t.connections ensures ConnectionInv(t, b) { assert ConnectionInv(s, b); }
    forall q: nat ensures RequestInv(t, q) {
      assert RequestInv(s, q);
      if Waiting(s, q) {
        var b :| b in s.connections && q in s.connections[b].pending;
        assert q in t.connections[b].pending;
      }
    }
  }

  /** A new connection, or one whose socket ended. */
  lemma RequestsConnections(s: State, t: State, a: string, c: Connection)
    requires RequestsInv(s) && t.connections == s.connections[a := c]
    requires t.issued == s.issued && t.settled == s.settled && t.answers == s.answers
    requires c.pending == (if a in s.connections then s.connections[a].pending else {})
    requires t.agents == s.agents + (if a in s.connections then {} else {a})
    requires a in s.connections ==> !c.open
    ensures RequestsInv(t)
  {
    forall b | b in t.connections ensures ConnectionInv(t, b) { if b in s.connections { assert ConnectionInv(s, b); } }
    forall q: nat ensures RequestInv(t, q) {
      assert RequestInv(s, q);
      if Waiting(s, q) {
        var b :| b in s.connections && q in s.connections[b].pending;
        assert q in t.connections[b].pending;
      }
    }
  }

  lemma RequestsStep(s: State, op: Op)
    requires RequestsInv(s) && UsersInv(s) && Enabled(s, op)
    ensures RequestsInv(Step(s, op))
  {
    match op {
      case Connect(a, u) => RequestsConnections(s, Step(s, op), a, Connection(u, true, {}));
      case SocketEnds(a) => RequestsConnections(s, Step(s, op), a, s.connections[a].(open := false));
      case Leave(a) =>
        RequestsAbort(s, a);
        RequestsFrame(AbortAll(s, a).(agents := s.agents - {a}), Step(s, op));
      case Asked(a, r) => assert ConnectionInv(s, a); RequestsAsk(s, a, r);
      case Responded(a, r, ok) => RequestsSettle(s, a, r, if ok then Resolved else Rejected);
      case TimerFired(a, r) => RequestsSettle(s, a, r, TimedOut);
      case _ => RequestsFrame(s, Step(s, op));
    }
  }

  lemma InvStep(s: State, op: Op)
    requires Inv(s) && Enabled(s, op)
    ensures Inv(Step(s, op))
  {
    UsersStep(s, op);
    WorkspacesStep(s, op);
    RequestsStep(s, op);
  }

  lemma {:induction false} InvRun(s: State, ops: seq<Op>, t: State)
    requires Inv(s) && Run(s, ops, t)
    ensures Inv(t)
    decreases |ops|
  {
    if ops != [] {
      InvStep(s, ops[0]);
      InvRun(Step(s, ops[0]), ops[1..], t);
    }
  }

  lemma InvEmpty()
    ensures Inv(EMPTY)
  {
    forall r: nat ensures RequestInv(EMPTY, r) { }
  }

  // ------------------------------------------------------- main results

  /** In every run the per-user sets list exactly the connected agents of each user,
      and users without one are not listed. */
  lemma ByUserIsTheInverse(ops: seq<Op>, t: State, userId: string, a: string)
    requires Run(EMPTY, ops, t)
    ensures (userId in t.byUser && a in t.byUser[userId]) <==> IsAgentOf(t, a, userId)
    ensures userId in t.byUser <==> exists b :: b in t.agents && IsAgentOf(t, b, userId)
  {
    InvEmpty();
    InvRun(EMPTY, ops, t);
    if userId in t.byUser {
      var b :| b in t.byUser[userId];
      assert IsAgentOf(t, b, userId);
    }
  }

  /** Workspace `w` is what it was, unless it is one of agent `a`. */
  predicate SameForOthers(before: map<string, Workspace>, after: map<string, Workspace>, a: string, w: string) {
    && (w in before && before[w].agentId != a ==> w in after && after[w] == before[w])
    && (w in after && after[w].agentId != a ==> w in before && after[w] == before[w])
  }

  lemma OpenOthers(s: State, a: string, f: OpenFrame, existing: Option<string>, newId: string, w: string)
    requires ServedInv(s) && Enabled(s, Opened(a, f, existing, newId))
    ensures SameForOthers(s.workspaces, Open(s, a, f, existing, newId).workspaces, a, w)
  {
  }

  lemma SelectOthers(s: State, a: string, id: string, w: string)
    ensures SameForOthers(s.workspaces, Select(s, a, id).workspaces, a, w)
  {
  }

  lemma LeaveOthers(s: State, a: string, w: string)
    requires a in s.connections
    ensures SameForOthers(s.workspaces, Disconnect(s, a).workspaces, a, w)
  {
  }

  lemma IndexOthers(s: State, a: string, id: string, events: seq<WorkspaceIndex.Event>, w: string)
    ensures SameForOthers(s.workspaces, IndexFrame(s, a, id, events).workspaces, a, w)
    ensures SameForOthers(s.workspaces, CloseWorkspace(s, a, id).workspaces, a, w)
  {
  }

  /** A frame or a disconnect of one agent leaves every other agent's workspaces as
      they are, index, selection and all, and opens none for another. */
  lemma OthersUntouched(s: State, op: Op, w: string)
    requires Inv(s) && Enabled(s, op)
    ensures SameForOthers(s.workspaces, Step(s, op).workspaces, op.agent, w)
  {
    match op {
      case Opened(a, f, existing, newId) => OpenOthers(s, a, f, existing, newId, w);
      case Selected(a, id) => SelectOthers(s, a, id, w);
      case Leave(a) => LeaveOthers(s, a, w);
      case Indexed(a, id, events) => IndexOthers(s, a, id, events, w);
      case Closed(a, id) => IndexOthers(s, a, id, [], w);
      case _ =>
    }
  }

  /** Each agent has at most one selected workspace, and a workspace is always served
      by a connected agent of the user it belongs to. */
  lemma OneSelectedEach(ops: seq<Op>, t: State, v: string, w: string)
    requires Run(EMPTY, ops, t) && v in t.workspaces && w in t.workspaces
    ensures IsAgentOf(t, t.workspaces[v].agentId, t.workspaces[v].userId)
    ensures BothSelected(t.workspaces[v], t.workspaces[w]) ==> v == w
  {
    InvEmpty();
    InvRun(EMPTY, ops, t);
  }

  /** The search for an already open workspace never has a choice. */
  lemma OneMatch(ops: seq<Op>, t: State, v: string, w: string, userId: string, a: string, f: OpenFrame)
    requires Run(EMPTY, ops, t) && v in t.workspaces && w in t.workspaces
    requires Matches(t.workspaces[v], userId, a, f) && Matches(t.workspaces[w], userId, a, f)
    ensures v == w
  {
    InvEmpty();
    InvRun(EMPTY, ops, t);
    assert SameIdentity(t.workspaces[v], t.workspaces[w]);
  }

  /** A request settles at most once; until it does, it waits at a connection that is
      still in the hub. */
  lemma SettledExactlyOnce(ops: seq<Op>, t: State, r: nat)
    requires Run(EMPTY, ops, t) && r in t.issued
    ensures t.settled[r] == 1 || (t.settled[r] == 0 && exists a :: a in t.connections && a in t.agents && r in t.connections[a].pending)
    ensures t.settled[r] == 1 <==> !Waiting(t, r)
    ensures r in t.answers <==> t.settled[r] == 1
  {
    InvEmpty();
    InvRun(EMPTY, ops, t);
    assert RequestInv(t, r);
    if Waiting(t, r) {
      var a :| a in t.connections && r in t.connections[a].pending;
      assert ConnectionInv(t, a);
    }
  }

  lemma AnswerStaysStep(s: State, op: Op, r: nat)
    requires Inv(s) && Enabled(s, op) && r in s.answers
    ensures r in Step(s, op).answers && Step(s, op).answers[r] == s.answers[r]
  {
    assert RequestInv(s, r);
    assert forall a :: a in s.connections && r in s.connections[a].pending ==> ConnectionInv(s, a);
  }

  /** The answer a caller got never changes, whatever arrives late. */
  lemma {:induction false} AnswerStays(s: State, ops: seq<Op>, t: State, r: nat)
    requires Inv(s) && Run(s, ops, t) && r in s.answers
    ensures r in t.answers && t.answers[r] == s.answers[r]
    decreases |ops|
  {
    if ops != [] {
      AnswerStaysStep(s, ops[0], r);
      InvStep(s, ops[0]);
      AnswerStays(Step(s, ops[0]), ops[1..], t, r);
    }
  }

  /** Nothing in the hub refers to this agent any more. */
  ghost predicate Gone(s: State, a: string) {
    && a in s.connections && a !in s.agents && s.connections[a].pending == {}
    && (forall u :: u in s.byUser ==> a !in s.byUser[u])
    && (forall w :: w in s.workspaces ==> s.workspaces[w].agentId != a)
  }

  lemma GoneMeans(s: State, a: string)
    requires Inv(s) && a in s.connections && a !in s.agents
    ensures Gone(s, a)
  {
    assert ConnectionInv(s, a);
  }

  lemma StaysOut(s: State, op: Op, a: string)
    requires Enabled(s, op) && a in s.connections && (a !in s.agents || op == Leave(a))
    ensures a in Step(s, op).connections && a !in Step(s, op).agents
  {
  }

  lemma {:induction false} StaysGone(s: State, ops: seq<Op>, t: State, a: string)
    requires Inv(s) && Run(s, ops, t) && a in s.connections && a !in s.agents
    ensures Gone(t, a)
    decreases |ops|
  {
    if ops == [] {
      GoneMeans(t, a);
    } else {
      StaysOut(s, ops[0], a);
      InvStep(s, ops[0]);
      StaysGone(Step(s, ops[0]), ops[1..], t, a);
    }
  }

  /** From its close event on, whatever follows, nothing refers to an agent: no user
      set, no workspace, no waiting request. */
  lemma NothingAfterDisconnect(before: seq<Op>, s: State, a: string, after: seq<Op>, t: State)
    requires Run(EMPTY, before, s) && Enabled(s, Leave(a)) && Run(Step(s, Leave(a)), after, t)
    ensures Gone(t, a)
  {
    InvEmpty();
    InvRun(EMPTY, before, s);
    InvStep(s, Leave(a));
    StaysOut(s, Leave(a), a);
    StaysGone(Step(s, Leave(a)), after, t, a);
  }
}
