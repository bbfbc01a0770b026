/** The bridge between the backend and the desktop apps: connected agents, the
    per-user sets of them, the workspaces they serve, and the requests in flight. */
module Hub {
  import opened Base
  import WorkspaceIndex

  /** An agent's connection; it outlives its place in the hub. */
  datatype Connection = Connection(userId: string, open: bool, pending: set<nat>)

  datatype Workspace = Workspace(
    userId: string, agentId: string, localId: string, rootPath: string, kind: string, singleFile: string,
    selected: bool, index: WorkspaceIndex.Index)

  /** How a request ended. */
  datatype Answer = Resolved | Rejected | TimedOut | Disconnected

  /** `agents` are the connections the hub holds. `settled` counts, for every
      request, how often its promise was settled; `answers` is the outcome. */
  datatype State = State(
    connections: map<string, Connection>, agents: set<string>, byUser: map<string, set<string>>,
    workspaces: map<string, Workspace>, workspaceIds: set<string>,
    issued: set<nat>, settled: multiset<nat>, answers: map<nat, Answer>)

  const EMPTY := State(map[], {}, map[], map[], {}, {}, multiset{}, map[])

  /** What a `workspace opened` frame says; an absent text is empty. */
  datatype OpenFrame = OpenFrame(name: string, rootPath: string, kind: string, localId: string, singleFile: string, selected: bool)

  // -------------------------------------------------- accept and disconnect

  function AddTo(byUser: map<string, set<string>>, userId: string, id: string): map<string, set<string>> {
    byUser[userId := (if userId in byUser then byUser[userId] else {}) + {id}]
  }

  function RemoveFrom(byUser: map<string, set<string>>, userId: string, id: string): map<string, set<string>> {
    if userId !in byUser || byUser[userId] <= {id} then byUser - {userId}
    else byUser[userId := byUser[userId] - {id}]
  }

  function Accept(s: State, id: string, userId: string): State {
    s.(connections := s.connections[id := Connection(userId, true, {})], agents := s.agents + {id},
       byUser := AddTo(s.byUser, userId, id))
  }

  function Aborted(answers: map<nat, Answer>, pending: set<nat>): map<nat, Answer> {
    map r | r in answers.Keys + pending :: if r in pending then Disconnected else answers[r]
  }

  lemma AbortOneMore(answers: map<nat, Answer>, done: set<nat>, r: nat)
    requires r !in done
    ensures multiset(done + {r}) == multiset(done) + multiset{r}
    ensures Aborted(answers, done + {r}) == Aborted(answers, done)[r := Disconnected]
  {
  }

  function AbortAll(s: State, id: string): State
    requires id in s.connections
  {
    var c := s.connections[id];
    s.(connections := s.connections[id := c.(open := false, pending := {})],
       settled := s.settled + multiset(c.pending), answers := Aborted(s.answers, c.pending))
  }

  function CloseForAgent(workspaces: map<string, Workspace>, id: string): map<string, Workspace> {
    map w | w in workspaces && workspaces[w].agentId != id :: workspaces[w]
  }

  /** The socket's close event. */
  function Disconnect(s: State, id: string): State
    requires id in s.connections
  {
    AbortAll(s, id).(agents := s.agents - {id}, byUser := RemoveFrom(s.byUser, s.connections[id].userId, id),
                     workspaces := CloseForAgent(s.workspaces, id))
  }

  // ------------------------------------------------------------ workspaces

  function SingleFile(f: OpenFrame): string {
    if f.singleFile == "" then f.name else f.singleFile
  }

  predicate KnownKind(f: OpenFrame) {
    f.kind == "folder" || f.kind == "file"
  }

  /** Does this open workspace already stand for what the frame opens? */
  predicate Matches(w: Workspace, userId: string, agentId: string, f: OpenFrame) {
    && w.userId == userId && w.agentId == agentId
    && (if f.localId != "" then w.localId == f.localId
        else w.localId == "" && w.rootPath == f.rootPath && w.kind == f.kind && (f.kind != "file" || w.singleFile == SingleFile(f)))
  }

  predicate Rebinds(w: Workspace, f: OpenFrame) {
    w.rootPath != f.rootPath || w.kind != f.kind || (f.kind == "file" && w.singleFile != SingleFile(f))
  }

  function SelectOnly(workspaces: map<string, Workspace>, agentId: string, id: string): map<string, Workspace> {
    map w | w in workspaces :: if workspaces[w].agentId == agentId then workspaces[w].(selected := w == id) else workspaces[w]
  }

  function MaybeSelected(workspaces: map<string, Workspace>, agentId: string, id: string, select: bool): map<string, Workspace> {
    if select then SelectOnly(workspaces, agentId, id) else workspaces
  }

  function NewWorkspace(userId: string, agentId: string, f: OpenFrame): Workspace {
    Workspace(userId, agentId, f.localId, f.rootPath, f.kind, if f.kind == "file" then SingleFile(f) else "", false, WorkspaceIndex.EMPTY)
  }

  predicate NothingMatches(s: State, agentId: string, f: OpenFrame)
    requires agentId in s.connections
  {
    forall w :: w in s.workspaces ==> !Matches(s.workspaces[w], s.connections[agentId].userId, agentId, f)
  }

  /** `existing` is the workspace the search stops at, if any; `newId` the id drawn
      otherwise. An unknown kind or a rebinding is refused. */
  function Open(s: State, agentId: string, f: OpenFrame, existing: Option<string>, newId: string): State
    requires agentId in s.connections && (existing.Some? ==> existing.value in s.workspaces)
  {
    if !KnownKind(f) then s
    else
      match existing
      case Some(id) =>
        var w := s.workspaces[id];
        if Rebinds(w, f) then s
        else s.(workspaces := MaybeSelected(s.workspaces[id := w.(index := WorkspaceIndex.Cleared(w.index))], agentId, id, f.selected))
      case None =>
        s.(workspaces := MaybeSelected(s.workspaces[newId := NewWorkspace(s.connections[agentId].userId, agentId, f)], agentId, newId, f.selected),
           workspaceIds := s.workspaceIds + {newId})
  }

  /** Only the serving agent may name a workspace in a frame. */
  predicate Serves(s: State, agentId: string, id: string) {
    id in s.workspaces && s.workspaces[id].agentId == agentId
  }

  function Select(s: State, agentId: string, id: string): State {
    if Serves(s, agentId, id) then s.(workspaces := SelectOnly(s.workspaces, agentId, id)) else s
  }

  /** Manifest chunks, file changes, editor state and index completion. */
  function IndexFrame(s: State, agentId: string, id: string, events: seq<WorkspaceIndex.Event>): State {
    if !Serves(s, agentId, id) then s
    else s.(workspaces := s.workspaces[id := s.workspaces[id].(index := WorkspaceIndex.Run(s.workspaces[id].index, events))])
  }

  function CloseWorkspace(s: State, agentId: string, id: string): State {
    if Serves(s, agentId, id) then s.(workspaces := s.workspaces - {id}) else s
  }

  // -------------------------------------------------------------- requests

  function Settle(s: State, id: string, r: nat, answer: Answer): State
    requires id in s.connections
  {
    var c := s.connections[id];
    if r !in c.pending then s
    else s.(connections := s.connections[id := c.(pending := c.pending - {r})],
            settled := s.settled + multiset{r}, answers := s.answers[r := answer])
  }

  function Request(s: State, id: string, r: nat): State
    requires id in s.connections
  {
    var c := s.connections[id];
    if !c.open then s.(issued := s.issued + {r}, settled := s.settled + multiset{r}, answers := s.answers[r := Disconnected])
    else s.(issued := s.issued + {r}, connections := s.connections[id := c.(pending := c.pending + {r})])
  }

  // ------------------------------------------------------------ the object

  class AgentHub {
    var connections: map<string, Connection>
    var agents: set<string>
    var byUser: map<string, set<string>>
    var workspaces: map<string, Workspace>
    var workspaceIds: set<string>
    var issued: set<nat>
    var settled: multiset<nat>
    var answers: map<nat, Answer>

    function Contents(): State
      reads this
    {
      State(connections, agents, byUser, workspaces, workspaceIds, issued, settled, answers)
    }

    constructor ()
      ensures Contents() == EMPTY
    {
      connections, agents, byUser, workspaces, workspaceIds := map[], {}, map[], map[], {};
      issued, settled, answers := {}, multiset{}, map[];
    }

    method OnConnection(id: string, userId: string)
      modifies this
      ensures Contents() == Accept(old(Contents()), id, userId)
    {
      connections := connections[id := Connection(userId, true, {})];
      agents := agents + {id};
      if userId !in byUser { byUser := byUser[userId := {}]; }
      byUser := byUser[userId := byUser[userId] + {id}];
    }

    method OnClose(id: string)
      requires id in connections
      modifies this
      ensures Contents() == Disconnect(old(Contents()), id)
    {
      AbortPending(id);
      agents := agents - {id};
      var userId := connections[id].userId;
      if userId in byUser { byUser := byUser[userId := byUser[userId] - {id}]; }
      if userId !in byUser || byUser[userId] == {} { byUser := byUser - {userId}; }
      CloseServed(id);
    }

    /** `abortAll`: the loop over the waiting requests. */
    method AbortPending(id: string)
      requires id in connections
      modifies this`connections, this`settled, this`answers
      ensures Contents() == AbortAll(old(Contents()), id)
    {
      var c := connections[id];
      connections := connections[id := c.(open := false, pending := {})];
      var waiting, done := c.pending, {};
      assert Aborted(answers, done) == answers;
      while waiting != {}
        invariant waiting + done == c.pending && waiting !! done
        invariant settled == old(settled) + multiset(done)
        invariant answers == Aborted(old(answers), done)
        invariant connections == old(connections)[id := c.(open := false, pending := {})]
        decreases |waiting|
      {
        var r :| r in waiting;
        AbortOneMore(old(answers), done, r);
        settled := settled + multiset{r};
        answers := answers[r := Disconnected];
        waiting, done := waiting - {r}, done + {r};
      }
    }

    /** `closeForAgent`. */
    method CloseServed(id: string)
      modifies this`workspaces
      ensures workspaces == CloseForAgent(old(workspaces), id)
    {
      var ids := workspaces.Keys;
      while ids != {}
        invariant ids <= workspaces.Keys <= old(workspaces).Keys
        invariant forall w :: w in workspaces ==> workspaces[w] == old(workspaces)[w]
        invariant forall w :: w in old(workspaces) && w !in ids ==> (w in workspaces <==> old(workspaces)[w].agentId != id)
        decreases |ids|
      {
        var w :| w in ids;
        ids := ids - {w};
        if workspaces[w].agentId == id { workspaces := workspaces - {w}; }
      }
    }

    /** The loop that moves the selection. */
    method SelectLoop(agentId: string, id: string)
      modifies this`workspaces
      ensures workspaces == SelectOnly(old(workspaces), agentId, id)
    {
      var ids := workspaces.Keys;
      while ids != {}
        invariant ids <= old(workspaces).Keys == workspaces.Keys
        invariant forall w :: w in ids ==> workspaces[w] == old(workspaces)[w]
        invariant forall w :: w in old(workspaces) && w !in ids ==> workspaces[w] == SelectOnly(old(workspaces), agentId, id)[w]
        decreases |ids|
      {
        var w :| w in ids;
        ids := ids - {w};
        if workspaces[w].agentId == agentId { workspaces := workspaces[w := workspaces[w].(selected := w == id)]; }
      }
    }

    method OnWorkspaceOpened(agentId: string, f: OpenFrame, existing: Option<string>, newId: string) returns (registered: Option<string>)
      requires agentId in connections && (existing.Some? ==> existing.value in workspaces)
      modifies this
      ensures Contents() == Open(old(Contents()), agentId, f, existing, newId)
      ensures registered.Some? <==> KnownKind(f) && (existing.Some? ==> !Rebinds(old(workspaces)[existing.value], f))
      ensures registered.Some? ==> registered.value in workspaces && workspaces[registered.value].rootPath == f.rootPath
    {
      if f.kind != "folder" && f.kind != "file" { return None; }
      var id := newId;
      if existing.Some? {
        id := existing.value;
        var w := workspaces[id];
        if w.rootPath != f.rootPath || w.kind != f.kind || (f.kind == "file" && w.singleFile != SingleFile(f)) { return None; }
        workspaces := workspaces[id := w.(index := WorkspaceIndex.Cleared(w.index))];
      } else {
        workspaces := workspaces[id := NewWorkspace(connections[agentId].userId, agentId, f)];
        workspaceIds := workspaceIds + {id};
      }
      if f.selected { SelectLoop(agentId, id); }
      return Some(id);
    }

    method OnWorkspaceSelected(agentId: string, id: string)
      modifies this
      ensures Contents() == Select(old(Contents()), agentId, id)
    {
      if id !in workspaces || workspaces[id].agentId != agentId { return; }
      SelectLoop(agentId, id);
    }

    method OnWorkspaceClosed(agentId: string, id: string)
      modifies this
      ensures Contents() == CloseWorkspace(old(Contents()), agentId, id)
    {
      if id !in workspaces || workspaces[id].agentId != agentId { return; }
      workspaces := workspaces - {id};
    }

    method SendRequest(id: string, r: nat)
      requires id in connections
      modifies this
      ensures Contents() == Request(old(Contents()), id, r)
    {
      issued := issued + {r};
      var c := connections[id];
      if !c.open {
        settled := settled + multiset{r};
        answers := answers[r := Disconnected];
        return;
      }
      connections := connections[id := c.(pending := c.pending + {r})];
    }

    /** A response, or the request's timer: a late one finds nothing waiting. */
    method SettleRequest(id: string, r: nat, answer: Answer)
      requires id in connections
      modifies this
      ensures Contents() == Settle(old(Contents()), id, r, answer)
    {
      var c := connections[id];
      if r !in c.pending { return; }
      connections := connections[id := c.(pending := c.pending - {r})];
      settled := settled + multiset{r};
      answers := answers[r := answer];
    }
  }
}
