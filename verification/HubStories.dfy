/** What the hub holds, by what its agents and callers said: every open workspace as
    its frames described it, the one last picked, and how every request ended. */
module HubStories {
  import opened Base
  import opened Hub
  import opened HubRuns
  import W = WorkspaceIndex

  /** An open workspace: who opened it, as what, and all that was said of its files. */
  datatype Tab = Tab(agentId: string, userId: string, localId: string, rootPath: string, kind: string, fileName: string, heard: seq<W.Event>)

  /** The hub, and the history: whose agents connected, which are still here, whose
      sockets ended, the open tabs, the last pick of each agent, and of whom requests
      were asked and how they ended. */
  datatype Story = Story(
    s: State, users: map<string, string>, here: set<string>, silent: set<string>,
    tabs: map<string, Tab>, picks: map<string, string>, asked: map<nat, string>, outcomes: map<nat, Answer>)

  const BEGINNING := Story(EMPTY, map[], {}, {}, map[], map[], map[], map[])

  function FileNamed(f: OpenFrame): string {
    if f.kind != "file" then "" else if f.singleFile != "" then f.singleFile else f.name
  }

  function NewTab(a: string, userId: string, f: OpenFrame): Tab {
    Tab(a, userId, f.localId, f.rootPath, f.kind, FileNamed(f), [])
  }

  /** The frame speaks of this tab: by its local id if it has one, else by what it opens. */
  predicate SpeaksOf(f: OpenFrame, a: string, tab: Tab) {
    && tab.agentId == a && tab.localId == f.localId
    && (f.localId == "" ==> tab.rootPath == f.rootPath && tab.kind == f.kind && tab.fileName == FileNamed(f))
  }

  /** A frame is accepted if it opens a folder or a file, and never something else under
      a tab that is already open. */
  predicate Accepted(h: Story, f: OpenFrame, existing: Option<string>) {
    && (f.kind == "folder" || f.kind == "file")
    && (existing.Some? ==>
          && existing.value in h.tabs
          && var tab := h.tabs[existing.value]; tab.rootPath == f.rootPath && tab.kind == f.kind && tab.fileName == FileNamed(f))
  }

  predicate OpenTab(h: Story, a: string, w: string) {
    w in h.tabs && h.tabs[w].agentId == a
  }

  function Heard(h: Story, w: string, events: seq<W.Event>): map<string, Tab>
    requires w in h.tabs
  {
    h.tabs[w := h.tabs[w].(heard := h.tabs[w].heard + events)]
  }

  function TabsAfter(h: Story, op: Op): map<string, Tab> {
    match op
    case Opened(a, f, existing, newId) =>
      if !Accepted(h, f, existing) then h.tabs
      else if existing.Some? then Heard(h, existing.value, [W.Reopened])
      else h.tabs[newId := NewTab(a, if a in h.users then h.users[a] else "", f)]
    case Indexed(a, w, events) => if OpenTab(h, a, w) then Heard(h, w, events) else h.tabs
    case Closed(a, w) => if OpenTab(h, a, w) then h.tabs - {w} else h.tabs
    case Leave(a) => map w | w in h.tabs && h.tabs[w].agentId != a :: h.tabs[w]
    case _ => h.tabs
  }

  function PicksAfter(h: Story, op: Op): map<string, string> {
    match op
    case Opened(a, f, existing, newId) =>
      if Accepted(h, f, existing) && f.selected then h.picks[a := OrElse(existing, newId)] else h.picks
    case Selected(a, w) => if OpenTab(h, a, w) then h.picks[a := w] else h.picks
    case _ => h.picks
  }

  predicate Unanswered(h: Story, a: string, r: nat) {
    r in h.asked && h.asked[r] == a && r !in h.outcomes
  }

  function EndedWith(asked: map<nat, string>, outcomes: map<nat, Answer>, a: string): map<nat, Answer> {
    outcomes + map r | r in asked && asked[r] == a && r !in outcomes :: Disconnected
  }

  /** The first answer counts; requests of a silent agent, and those left when it goes,
      end as disconnected. */
  function OutcomesAfter(h: Story, op: Op): map<nat, Answer> {
    match op
    case Asked(a, r) => if a in h.silent then h.outcomes[r := Disconnected] else h.outcomes
    case Responded(a, r, ok) =>
      if Unanswered(h, a, r) then h.outcomes[r := if ok then Resolved else Rejected] else h.outcomes
    case TimerFired(a, r) => if Unanswered(h, a, r) then h.outcomes[r := TimedOut] else h.outcomes
    case Leave(a) => EndedWith(h.asked, h.outcomes, a)
    case _ => h.outcomes
  }

  function Next(h: Story, op: Op): Story
    requires Enabled(h.s, op)
  {
    Story(HubRuns.Step(h.s, op),
          if op.Connect? then h.users[op.agent := op.userId] else h.users,
          if op.Connect? then h.here + {op.agent} else if op.Leave? then h.here - {op.agent} else h.here,
          if op.SocketEnds? || op.Leave? then h.silent + {op.agent} else h.silent,
          TabsAfter(h, op), PicksAfter(h, op),
          if op.Asked? then h.asked[op.request := op.agent] else h.asked, OutcomesAfter(h, op))
  }

  ghost predicate Tale(h: Story, ops: seq<Op>, t: Story)
    decreases |ops|
  {
    if ops == [] then h == t else Enabled(h.s, ops[0]) && Tale(Next(h, ops[0]), ops[1..], t)
  }

  // ----------------------------------------------------- what the hub says

  /** A tab as the hub shows it: selected if its agent picked it last, its files as
      the events about it say. */
  function Shown(w: string, tab: Tab, picks: map<string, string>): Workspace {
    Workspace(tab.userId, tab.agentId, tab.localId, tab.rootPath, tab.kind, tab.fileName,
              tab.agentId in picks && picks[tab.agentId] == w, W.Run(W.EMPTY, tab.heard))
  }

  predicate AgentsTold(s: State, users: map<string, string>, here: set<string>, silent: set<string>) {
    && s.agents == here && s.connections.Keys == users.Keys && here <= users.Keys && silent <= users.Keys
    && forall a :: a in users ==> s.connections[a].userId == users[a] && (s.connections[a].open <==> a !in silent)
  }

  predicate TabInv(tab: Tab, users: map<string, string>) {
    tab.agentId in users && tab.userId == users[tab.agentId] && (tab.kind != "file" ==> tab.fileName == "")
  }

  predicate AllShown(workspaces: map<string, Workspace>, tabs: map<string, Tab>, picks: map<string, string>) {
    workspaces.Keys == tabs.Keys && forall w :: w in tabs ==> workspaces[w] == Shown(w, tabs[w], picks)
  }

  predicate TabsTold(h: Story) {
    && AllShown(h.s.workspaces, h.tabs, h.picks)
    && (forall w :: w in h.tabs ==> TabInv(h.tabs[w], h.users))
    && h.tabs.Keys <= h.s.workspaceIds
    && (forall a :: a in h.picks ==> h.picks[a] in h.s.workspaceIds)
  }

  predicate WaitsFor(c: Connection, a: string, asked: map<nat, string>, outcomes: map<nat, Answer>) {
    && (forall r :: r in c.pending ==> r in asked && asked[r] == a && r !in outcomes)
    && (forall r :: r in asked && asked[r] == a && r !in outcomes ==> r in c.pending)
  }

  ghost predicate RequestsTold(s: State, asked: map<nat, string>, outcomes: map<nat, Answer>) {
    && s.issued == asked.Keys && s.answers == outcomes && outcomes.Keys <= asked.Keys
    && (forall r :: r in asked ==> asked[r] in s.connections)
    && (forall a :: a in s.connections ==> WaitsFor(s.connections[a], a, asked, outcomes))
  }

  ghost predicate Told(h: Story) {
    AgentsTold(h.s, h.users, h.here, h.silent) && TabsTold(h) && RequestsTold(h.s, h.asked, h.outcomes)
  }

  // -------------------------------------------------------------- the proof

  lemma {:induction false} RunOn(ix: W.Index, heard: seq<W.Event>, events: seq<W.Event>)
    ensures W.Run(ix, heard + events) == W.Run(W.Run(ix, heard), events)
  {
    if events == [] {
      assert heard + events == heard;
    } else {
      var n := |events| - 1;
      assert (heard + events)[..|heard + events| - 1] == heard + events[..n];
      RunOn(ix, heard, events[..n]);
    }
  }

  lemma ReopenedOnce(ix: W.Index)
    ensures W.Run(ix, [W.Reopened]) == W.Cleared(ix)
  {
    assert [W.Reopened][..0] == [];
  }

  /** Frames about workspaces touch nothing else. */
  predicate AboutWorkspaces(op: Op) {
    op.Opened? || op.Selected? || op.Indexed? || op.Closed?
  }

  lemma OnlyWorkspaces(s: State, op: Op)
    requires AboutWorkspaces(op) && Enabled(s, op)
    ensures var t := HubRuns.Step(s, op); t == s.(workspaces := t.workspaces, workspaceIds := t.workspaceIds)
  {
  }

  lemma AgentsRequests(s: State, users: map<string, string>, here: set<string>, silent: set<string>, a: string, r: nat, answer: Answer)
    requires AgentsTold(s, users, here, silent) && a in s.connections
    ensures AgentsTold(Request(s, a, r), users, here, silent) && AgentsTold(Settle(s, a, r, answer), users, here, silent)
  {
  }

  lemma AgentsLeave(s: State, users: map<string, string>, here: set<string>, silent: set<string>, a: string)
    requires AgentsTold(s, users, here, silent) && a in s.connections
    ensures AgentsTold(Disconnect(s, a), users, here - {a}, silent + {a})
  {
  }

  lemma AgentsNext(h: Story, op: Op)
    requires AgentsTold(h.s, h.users, h.here, h.silent) && Enabled(h.s, op)
    ensures var t := Next(h, op); AgentsTold(t.s, t.users, t.here, t.silent)
  {
    if AboutWorkspaces(op) {
      OnlyWorkspaces(h.s, op);
    } else {
      match op {
        case Leave(a) => AgentsLeave(h.s, h.users, h.here, h.silent, a);
        case Asked(a, r) => AgentsRequests(h.s, h.users, h.here, h.silent, a, r, TimedOut);
        case Responded(a, r, ok) => AgentsRequests(h.s, h.users, h.here, h.silent, a, r, if ok then Resolved else Rejected);
        case TimerFired(a, r) => AgentsRequests(h.s, h.users, h.here, h.silent, a, r, TimedOut);
        case _ =>
      }
    }
  }

  lemma HeardShown(workspaces: map<string, Workspace>, tabs: map<string, Tab>, picks: map<string, string>, w: string, events: seq<W.Event>)
    requires AllShown(workspaces, tabs, picks) && w in tabs
    ensures AllShown(workspaces[w := workspaces[w].(index := W.Run(workspaces[w].index, events))],
                     tabs[w := tabs[w].(heard := tabs[w].heard + events)], picks)
  {
    RunOn(W.EMPTY, tabs[w].heard, events);
  }

  lemma PickShown(workspaces: map<string, Workspace>, tabs: map<string, Tab>, picks: map<string, string>, a: string, w: string)
    requires AllShown(workspaces, tabs, picks)
    ensures AllShown(SelectOnly(workspaces, a, w), tabs, picks[a := w])
  {
  }

  lemma OpenedShown(workspaces: map<string, Workspace>, tabs: map<string, Tab>, picks: map<string, string>,
                    a: string, userId: string, f: OpenFrame, w: string)
    requires AllShown(workspaces, tabs, picks) && w !in tabs && forall b :: b in picks ==> picks[b] != w
    ensures AllShown(workspaces[w := NewWorkspace(userId, a, f)], tabs[w := NewTab(a, userId, f)], picks)
  {
  }

  lemma TabsReopened(h: Story, a: string, f: OpenFrame, w: string, newId: string)
    requires TabsTold(h) && Enabled(h.s, Opened(a, f, Some(w), newId)) && Accepted(h, f, Some(w))
    ensures TabsTold(Next(h, Opened(a, f, Some(w), newId)))
  {
    var ws := h.s.workspaces;
    HeardShown(ws, h.tabs, h.picks, w, [W.Reopened]);
    ReopenedOnce(ws[w].index);
    PickShown(ws[w := ws[w].(index := W.Cleared(ws[w].index))], Heard(h, w, [W.Reopened]), h.picks, a, w);
  }

  lemma TabsOpened(h: Story, a: string, f: OpenFrame, w: string)
    requires AgentsTold(h.s, h.users, h.here, h.silent) && TabsTold(h) && Enabled(h.s, Opened(a, f, None, w)) && Accepted(h, f, None)
    ensures TabsTold(Next(h, Opened(a, f, None, w)))
  {
    OpenedShown(h.s.workspaces, h.tabs, h.picks, a, h.users[a], f, w);
    PickShown(h.s.workspaces[w := NewWorkspace(h.users[a], a, f)], h.tabs[w := NewTab(a, h.users[a], f)], h.picks, a, w);
  }

  lemma RefusedOpening(h: Story, a: string, f: OpenFrame, existing: Option<string>, newId: string)
    requires TabsTold(h) && Enabled(h.s, Opened(a, f, existing, newId)) && !Accepted(h, f, existing)
    ensures Next(h, Opened(a, f, existing, newId)) == h
  {
    if existing.Some? { assert TabInv(h.tabs[existing.value], h.users); }
  }

  lemma ServesItsTabs(workspaces: map<string, Workspace>, tabs: map<string, Tab>, picks: map<string, string>, w: string)
    requires AllShown(workspaces, tabs, picks) && w in tabs
    ensures w in workspaces && workspaces[w].agentId == tabs[w].agentId
  {
  }

  lemma TabsSelected(h: Story, a: string, w: string)
    requires TabsTold(h) && Enabled(h.s, Selected(a, w))
    ensures TabsTold(Next(h, Selected(a, w)))
  {
    var t := Next(h, Selected(a, w));
    if OpenTab(h, a, w) {
      ServesItsTabs(h.s.workspaces, h.tabs, h.picks, w);
      PickShown(h.s.workspaces, h.tabs, h.picks, a, w);
      assert t == h.(s := h.s.(workspaces := SelectOnly(h.s.workspaces, a, w)), picks := h.picks[a := w]);
    } else {
      if w in h.tabs { ServesItsTabs(h.s.workspaces, h.tabs, h.picks, w); }
      assert t == h;
    }
  }

  lemma TabsIndexed(h: Story, a: string, w: string, events: seq<W.Event>)
    requires TabsTold(h) && Enabled(h.s, Indexed(a, w, events))
    ensures TabsTold(Next(h, Indexed(a, w, events)))
  {
    if OpenTab(h, a, w) { HeardShown(h.s.workspaces, h.tabs, h.picks, w, events); }
  }

  lemma ClosedShown(workspaces: map<string, Workspace>, tabs: map<string, Tab>, picks: map<string, string>, w: string)
    requires AllShown(workspaces, tabs, picks)
    ensures AllShown(workspaces - {w}, tabs - {w}, picks)
  {
  }

  lemma TabsClosed(h: Story, a: string, w: string)
    requires TabsTold(h) && Enabled(h.s, Closed(a, w))
    ensures TabsTold(Next(h, Closed(a, w)))
  {
    if w in h.tabs { ServesItsTabs(h.s.workspaces, h.tabs, h.picks, w); }
    if OpenTab(h, a, w) { ClosedShown(h.s.workspaces, h.tabs, h.picks, w); }
  }

  /** Nothing else changes a tab; new users may come. */
  lemma TabsKept(h: Story, t: Story)
    requires TabsTold(h) && t.tabs == h.tabs && t.picks == h.picks
    requires t.s.workspaces == h.s.workspaces && t.s.workspaceIds == h.s.workspaceIds
    requires forall a :: a in h.users ==> a in t.users && t.users[a] == h.users[a]
    ensures TabsTold(t)
  {
    forall w | w in t.tabs ensures TabInv(t.tabs[w], t.users) { assert TabInv(h.tabs[w], h.users); }
  }

  lemma TabsLeave(h: Story, a: string)
    requires TabsTold(h) && Enabled(h.s, Leave(a))
    ensures TabsTold(Next(h, Leave(a)))
  {
  }

  lemma TabsAfterOpening(h: Story, a: string, f: OpenFrame, existing: Option<string>, newId: string)
    requires Told(h) && Enabled(h.s, Opened(a, f, existing, newId))
    ensures TabsTold(Next(h, Opened(a, f, existing, newId)))
  {
    if !Accepted(h, f, existing) { RefusedOpening(h, a, f, existing, newId); }
    else if existing.Some? { TabsReopened(h, a, f, existing.value, newId); }
    else { TabsOpened(h, a, f, newId); }
  }

  lemma QuietHub(s: State, op: Op)
    requires Enabled(s, op) && (op.SocketEnds? || op.Asked? || op.Responded? || op.TimerFired?)
    ensures HubRuns.Step(s, op).workspaces == s.workspaces && HubRuns.Step(s, op).workspaceIds == s.workspaceIds
  {
  }

  lemma TabsQuiet(h: Story, op: Op)
    requires TabsTold(h) && Enabled(h.s, op) && (op.SocketEnds? || op.Asked? || op.Responded? || op.TimerFired?)
    ensures TabsTold(Next(h, op))
  {
    QuietHub(h.s, op);
    TabsKept(h, Next(h, op));
  }

  lemma TabsNext(h: Story, op: Op)
    requires Told(h) && Enabled(h.s, op)
    ensures TabsTold(Next(h, op))
  {
    match op {
      case Opened(a, f, existing, newId) => TabsAfterOpening(h, a, f, existing, newId);
      case Selected(a, w) => TabsSelected(h, a, w);
      case Indexed(a, w, events) => TabsIndexed(h, a, w, events);
      case Closed(a, w) => TabsClosed(h, a, w);
      case Leave(a) => TabsLeave(h, a);
      case Connect(a, userId) => TabsKept(h, Next(h, Connect(a, userId)));
      case _ => TabsQuiet(h, op);
    }
  }

  lemma RequestSettled(s: State, asked: map<nat, string>, outcomes: map<nat, Answer>, a: string, r: nat, answer: Answer)
    requires RequestsTold(s, asked, outcomes) && a in s.connections
    ensures RequestsTold(Settle(s, a, r, answer), asked,
                         if r in asked && asked[r] == a && r !in outcomes then outcomes[r := answer] else outcomes)
  {
    assert WaitsFor(s.connections[a], a, asked, outcomes);
  }

  lemma RequestAsked(s: State, asked: map<nat, string>, outcomes: map<nat, Answer>, a: string, r: nat)
    requires RequestsTold(s, asked, outcomes) && a in s.connections && r !in s.issued
    ensures RequestsTold(Request(s, a, r), asked[r := a], if s.connections[a].open then outcomes else outcomes[r := Disconnected])
  {
  }

  lemma RequestsAborted(s: State, asked: map<nat, string>, outcomes: map<nat, Answer>, a: string)
    requires RequestsTold(s, asked, outcomes) && a in s.connections
    ensures RequestsTold(AbortAll(s, a), asked, EndedWith(asked, outcomes, a))
  {
    assert WaitsFor(s.connections[a], a, asked, outcomes);
  }

  lemma RequestsConnected(s: State, asked: map<nat, string>, outcomes: map<nat, Answer>, a: string, userId: string)
    requires RequestsTold(s, asked, outcomes) && a !in s.connections
    ensures RequestsTold(Accept(s, a, userId), asked, outcomes)
  {
  }

  lemma RequestsSilenced(s: State, asked: map<nat, string>, outcomes: map<nat, Answer>, a: string)
    requires RequestsTold(s, asked, outcomes) && a in s.connections
    ensures RequestsTold(s.(connections := s.connections[a := s.connections[a].(open := false)]), asked, outcomes)
  {
  }

  lemma RequestsLeft(h: Story, a: string)
    requires Told(h) && Enabled(h.s, Leave(a))
    ensures var t := Next(h, Leave(a)); RequestsTold(t.s, t.asked, t.outcomes)
  {
    RequestsAborted(h.s, h.asked, h.outcomes, a);
    var t := Next(h, Leave(a));
    SameRequests(AbortAll(h.s, a), t.s, t.asked, t.outcomes);
  }

  lemma SameRequests(s: State, t: State, asked: map<nat, string>, outcomes: map<nat, Answer>)
    requires RequestsTold(s, asked, outcomes) && t.connections == s.connections && t.issued == s.issued && t.answers == s.answers
    ensures RequestsTold(t, asked, outcomes)
  {
  }

  lemma RequestsNext(h: Story, op: Op)
    requires Told(h) && Enabled(h.s, op)
    ensures var t := Next(h, op); RequestsTold(t.s, t.asked, t.outcomes)
  {
    if AboutWorkspaces(op) {
      OnlyWorkspaces(h.s, op);
    } else {
      match op {
        case Connect(a, userId) => RequestsConnected(h.s, h.asked, h.outcomes, a, userId);
        case Asked(a, r) => RequestAsked(h.s, h.asked, h.outcomes, a, r);
        case Responded(a, r, ok) => RequestSettled(h.s, h.asked, h.outcomes, a, r, if ok then Resolved else Rejected);
        case TimerFired(a, r) => RequestSettled(h.s, h.asked, h.outcomes, a, r, TimedOut);
        case Leave(a) => RequestsLeft(h, a);
        case SocketEnds(a) => RequestsSilenced(h.s, h.asked, h.outcomes, a);
      }
    }
  }

  lemma ToldNext(h: Story, op: Op)
    requires Told(h) && HubRuns.Inv(h.s) && Enabled(h.s, op)
    ensures Told(Next(h, op)) && HubRuns.Inv(Next(h, op).s)
  {
    AgentsNext(h, op);
    TabsNext(h, op);
    RequestsNext(h, op);
    HubRuns.InvStep(h.s, op);
  }

  lemma {:induction false} ToldRun(h: Story, ops: seq<Op>, t: Story)
    requires Told(h) && HubRuns.Inv(h.s) && Tale(h, ops, t)
    ensures Told(t) && HubRuns.Inv(t.s)
    decreases |ops|
  {
    if ops != [] {
      ToldNext(h, ops[0]);
      ToldRun(Next(h, ops[0]), ops[1..], t);
    }
  }

  // ---------------------------------------------------------- what it means

  /** In every run the open workspaces are exactly the tabs that were opened and not
      closed since, each as its frames described it, indexed as the events about it say,
      and selected exactly if it is the one its agent picked last. */
  lemma WorkspacesAsTold(ops: seq<Op>, h: Story, w: string)
    requires Tale(BEGINNING, ops, h)
    ensures w in h.s.workspaces <==> w in h.tabs
    ensures w in h.tabs ==> h.s.workspaces[w] == Shown(w, h.tabs[w], h.picks) && h.tabs[w].agentId in h.here
  {
    HubRuns.InvEmpty();
    ToldRun(BEGINNING, ops, h);
    if w in h.tabs { assert IsAgentOf(h.s, h.s.workspaces[w].agentId, h.s.workspaces[w].userId); }
  }

  /** In every run a request has the outcome that reached it first, and waits at the
      agent it was asked of until one does. */
  lemma AnsweredAsTold(ops: seq<Op>, h: Story, a: string, r: nat)
    requires Tale(BEGINNING, ops, h) && a in h.users
    ensures h.s.answers == h.outcomes && h.s.issued == h.asked.Keys
    ensures a in h.s.connections && (r in h.s.connections[a].pending <==> Unanswered(h, a, r))
    ensures a in h.s.agents <==> a in h.here
  {
    HubRuns.InvEmpty();
    ToldRun(BEGINNING, ops, h);
  }

  /** The search for an open workspace finds exactly the tab the frame speaks of. */
  lemma SearchFindsTheTab(ops: seq<Op>, h: Story, a: string, f: OpenFrame, w: string)
    requires Tale(BEGINNING, ops, h) && a in h.here && w in h.tabs
    ensures a in h.users && w in h.s.workspaces
    ensures Matches(h.s.workspaces[w], h.users[a], a, f) <==> SpeaksOf(f, a, h.tabs[w])
  {
    HubRuns.InvEmpty();
    ToldRun(BEGINNING, ops, h);
    assert TabInv(h.tabs[w], h.users);
  }
}
