/** What becomes of every wait: who sleeps, and what each waiter is told, by the calls
    that were made. */
module SignalStories {
  import opened Base
  import opened Signals

  datatype Fate = Sleeping(key: string) | Told(version: nat)

  /** The table, how often any key was notified, and the fate of every wait. */
  datatype Story = Story(s: State, notified: nat, fates: map<nat, Fate>)

  const BEGINNING := Story(INITIAL, 0, map[])

  function Sleepers(fates: map<nat, Fate>, key: string): set<nat> {
    set id | id in fates && fates[id] == Sleeping(key)
  }

  /** A notification tells every sleeper of its key its own number. A wait that names the
      current version sleeps if fewer than 32 do, and any other is told that version;
      so is a sleeper that gives up. */
  function FatesAfter(h: Story, op: Op): map<nat, Fate> {
    match op
    case NotifyOp(key) => map id | id in h.fates :: if h.fates[id] == Sleeping(key) then Told(h.notified + 1) else h.fates[id]
    case WaitOp(id, key, after) =>
      h.fates[id := if after == Version(h.s, key) && |Sleepers(h.fates, key)| < 32 then Sleeping(key) else Told(Version(h.s, key))]
    case Cancel(id, key) => h.fates[id := Told(Version(h.s, key))]
  }

  function Next(h: Story, op: Op): Story {
    Story(Signals.Step(h.s, op), if op.NotifyOp? then h.notified + 1 else h.notified, FatesAfter(h, op))
  }

  ghost predicate Tale(h: Story, ops: seq<Op>, t: Story)
    decreases |ops|
  {
    if ops == [] then h == t else Enabled(h.s, ops[0]) && Tale(Next(h, ops[0]), ops[1..], t)
  }

  predicate NoRepeats(ids: seq<nat>) {
    forall i, j :: 0 <= i < j < |ids| ==> ids[i] != ids[j]
  }

  predicate FateTold(s: State, fates: map<nat, Fate>, id: nat) {
    && (id in fates && fates[id].Told? <==> id in s.answers)
    && (id in fates && fates[id].Told? ==> s.answers[id] == fates[id].version)
    && (id in fates && fates[id].Sleeping? ==> Asleep(s, id, fates[id].key))
  }

  ghost predicate AllTold(h: Story) {
    && Signals.Inv(h.s) && h.s.upcoming == h.notified + 1
    && (forall id: nat :: FateTold(h.s, h.fates, id))
    && (forall id: nat, key :: Asleep(h.s, id, key) ==> id in h.fates && h.fates[id] == Sleeping(key))
    && (forall key :: key in h.s.listeners ==> NoRepeats(h.s.listeners[key]))
  }

  // -------------------------------------------------------------- the proof

  lemma {:induction false} SizeOfDistinct(ids: seq<nat>, all: set<nat>)
    requires NoRepeats(ids) && forall id :: id in all <==> id in ids
    ensures |all| == |ids|
  {
    if ids == [] {
      assert all == {};
    } else {
      var n := |ids| - 1;
      assert ids == ids[..n] + [ids[n]];
      assert ids[n] !in ids[..n];
      SizeOfDistinct(ids[..n], all - {ids[n]});
    }
  }

  lemma SleepersAreListening(h: Story, key: string)
    requires AllTold(h)
    ensures |Sleepers(h.fates, key)| == |Listening(h.s, key)|
  {
    forall id ensures id in Sleepers(h.fates, key) <==> id in Listening(h.s, key) {
      assert FateTold(h.s, h.fates, id);
      if id in Listening(h.s, key) { assert Asleep(h.s, id, key); }
    }
    SizeOfDistinct(Listening(h.s, key), Sleepers(h.fates, key));
  }

  lemma {:induction false} DropKeepsDistinct(ids: seq<nat>, id: nat)
    requires NoRepeats(ids)
    ensures NoRepeats(Drop(ids, id))
  {
    if ids != [] {
      DropKeepsDistinct(ids[1..], id);
      if ids[0] != id { assert ids[0] !in Drop(ids[1..], id); }
    }
  }

  /** Waking touches only the woken, their key and their answers. */
  lemma {:induction false} WakeAllEffect(s: State, ids: seq<nat>, key: string, version: nat)
    ensures var t := WakeAll(s, ids, key, version);
            && (forall other :: other != key && other in t.listeners ==> other in s.listeners && t.listeners[other] == s.listeners[other])
            && (forall id: nat :: id !in ids ==> (id in t.answers <==> id in s.answers) && (id in s.answers ==> t.answers[id] == s.answers[id]))
  {
    if ids != [] { WakeAllEffect(s, ids[..|ids| - 1], key, version); }
  }

  lemma NotifiedTold(h: Story, key: string)
    requires AllTold(h)
    ensures AllTold(Next(h, NotifyOp(key)))
  {
    var t := Next(h, NotifyOp(key));
    var renewed := Renewed(h.s, key);
    InvNotify(h.s, key);
    NotifyWakes(h.s, key);
    WakeAllEffect(renewed, Listening(h.s, key), key, h.s.upcoming);
    WakeAllKeepsTable(renewed, Listening(h.s, key), key, h.s.upcoming);
    forall id: nat ensures FateTold(t.s, t.fates, id) {
      assert FateTold(h.s, h.fates, id);
      if id in Listening(h.s, key) { assert Asleep(h.s, id, key); }
      if id in h.fates && h.fates[id].Sleeping? && h.fates[id].key != key { assert Listening(t.s, h.fates[id].key) == Listening(h.s, h.fates[id].key); }
    }
    forall id: nat, other | Asleep(t.s, id, other) ensures id in t.fates && t.fates[id] == Sleeping(other) {
      assert other != key && Asleep(h.s, id, other);
    }
    forall other | other in t.s.listeners ensures NoRepeats(t.s.listeners[other]) {
      if other == key { var id := t.s.listeners[key][0]; assert Asleep(t.s, id, key); }
    }
  }

  lemma WaitTold(h: Story, id: nat, key: string, after: nat)
    requires AllTold(h) && Enabled(h.s, WaitOp(id, key, after))
    ensures AllTold(Next(h, WaitOp(id, key, after)))
  {
    var t := Next(h, WaitOp(id, key, after));
    InvStep(h.s, WaitOp(id, key, after));
    SleepersAreListening(h, key);
    forall x: nat ensures FateTold(t.s, t.fates, x) { assert FateTold(h.s, h.fates, x); }
    forall x: nat, other | Asleep(t.s, x, other) ensures x in t.fates && t.fates[x] == Sleeping(other) {
      if x != id { assert Asleep(h.s, x, other); }
    }
  }

  lemma CancelTold(h: Story, id: nat, key: string)
    requires AllTold(h) && Enabled(h.s, Cancel(id, key))
    ensures AllTold(Next(h, Cancel(id, key)))
  {
    var t := Next(h, Cancel(id, key));
    InvStep(h.s, Cancel(id, key));
    InvWake(h.s, id, key, Version(h.s, key));
    DropKeepsDistinct(Listening(h.s, key), id);
    forall x: nat ensures FateTold(t.s, t.fates, x) {
      assert FateTold(h.s, h.fates, x);
      if x != id && x in h.fates && h.fates[x].Sleeping? && h.fates[x].key != key {
        assert Listening(t.s, h.fates[x].key) == Listening(h.s, h.fates[x].key);
      }
    }
    forall x: nat, other | Asleep(t.s, x, other) ensures x in t.fates && t.fates[x] == Sleeping(other) {
      if other != key { assert Listening(t.s, other) == Listening(h.s, other); }
      assert Asleep(h.s, x, other);
    }
  }

  lemma {:induction false} ToldRun(h: Story, ops: seq<Op>, t: Story)
    requires AllTold(h) && Tale(h, ops, t)
    ensures AllTold(t)
    decreases |ops|
  {
    if ops != [] {
      match ops[0] {
        case NotifyOp(key) => NotifiedTold(h, key);
        case WaitOp(id, key, after) => WaitTold(h, id, key, after);
        case Cancel(id, key) => CancelTold(h, id, key);
      }
      ToldRun(Next(h, ops[0]), ops[1..], t);
    }
  }

  /** Over every run: exactly the waits that fell asleep, and were neither notified nor
      cancelled since, sleep; every other one has been told its version. */
  lemma FatesAsTold(ops: seq<Op>, h: Story, id: nat, key: string)
    requires Tale(BEGINNING, ops, h)
    ensures Asleep(h.s, id, key) <==> id in h.fates && h.fates[id] == Sleeping(key)
    ensures id in h.s.answers <==> id in h.fates && h.fates[id].Told?
    ensures id in h.s.answers ==> h.s.answers[id] == h.fates[id].version
    ensures h.s.upcoming == h.notified + 1
  {
    forall x: nat ensures FateTold(INITIAL, map[], x) { }
    ToldRun(BEGINNING, ops, h);
    assert FateTold(h.s, h.fates, id);
  }
}
