/** In-memory notifications: a version per key, in a table that forgets the key
    notified longest ago once it outgrows its cap, and the waiters to wake. */
module Signals {
  import opened Base

  const CAPACITY := 10000
  const MAX_LISTENERS := 32
  const EPOCH := 0

  datatype Entry = Entry(key: string, version: nat)

  /** `upcoming` is the next version to be drawn; `answers` are the resolved promises. */
  datatype State = State(versions: seq<Entry>, listeners: map<string, seq<nat>>, answers: map<nat, nat>, upcoming: nat)

  const INITIAL := State([], map[], map[], 1)

  /** `Map.get`. */
  function Latest(versions: seq<Entry>, key: string): Option<nat> {
    if versions == [] then None
    else if versions[|versions| - 1].key == key then Some(versions[|versions| - 1].version)
    else Latest(versions[..|versions| - 1], key)
  }

  function Version(s: State, key: string): nat {
    OrElse(Latest(s.versions, key), EPOCH)
  }

  /** `Map.delete`: the other entries keep their order. */
  function Without(versions: seq<Entry>, key: string): seq<Entry> {
    if versions == [] then []
    else
      var n := |versions| - 1;
      var w := Without(versions[..n], key);
      if versions[n].key == key then w else w + [versions[n]]
  }

  function Renew(versions: seq<Entry>, key: string, version: nat): seq<Entry> {
    LastN(Without(versions, key) + [Entry(key, version)], CAPACITY)
  }

  function Listening(s: State, key: string): seq<nat> {
    if key in s.listeners then s.listeners[key] else []
  }

  function SetListeners(listeners: map<string, seq<nat>>, key: string, ids: seq<nat>): map<string, seq<nat>> {
    if ids == [] then listeners - {key} else listeners[key := ids]
  }

  function Drop(ids: seq<nat>, id: nat): (r: seq<nat>)
    ensures forall x :: x in r <==> x in ids && x != id
  {
    if ids == [] then []
    else if ids[0] == id then Drop(ids[1..], id) else [ids[0]] + Drop(ids[1..], id)
  }

  /** The closure `done(version)` of one waiter. */
  function Wake(s: State, id: nat, key: string, version: nat): State {
    s.(listeners := SetListeners(s.listeners, key, Drop(Listening(s, key), id)), answers := s.answers[id := version])
  }

  function WakeAll(s: State, ids: seq<nat>, key: string, version: nat): State {
    if ids == [] then s else Wake(WakeAll(s, ids[..|ids| - 1], key, version), ids[|ids| - 1], key, version)
  }

  function Renewed(s: State, key: string): State {
    s.(versions := Renew(s.versions, key, s.upcoming), upcoming := s.upcoming + 1)
  }

  function Notify(s: State, key: string): State {
    WakeAll(Renewed(s, key), Listening(s, key), key, s.upcoming)
  }

  function Wait(s: State, id: nat, key: string, after: nat): State {
    if after != Version(s, key) || |Listening(s, key)| >= MAX_LISTENERS
    then s.(answers := s.answers[id := Version(s, key)])
    else s.(listeners := s.listeners[key := Listening(s, key) + [id]])
  }

  predicate Asleep(s: State, id: nat, key: string) {
    id in Listening(s, key)
  }

  // --------------------------------------------------------- the object

  class SignalTable {
    var versions: seq<Entry>
    var listeners: map<string, seq<nat>>
    var answers: map<nat, nat>
    var upcoming: nat

    function Contents(): State
      reads this
    {
      State(versions, listeners, answers, upcoming)
    }

    constructor ()
      ensures Contents() == INITIAL
    {
      versions, listeners, answers, upcoming := [], map[], map[], 1;
    }

    method NotifySignal(key: string)
      modifies this
      ensures Contents() == Notify(old(Contents()), key)
    {
      var version := upcoming;
      upcoming := upcoming + 1;
      versions := Without(versions, key);
      versions := versions + [Entry(key, version)];
      Evict();
      assert Contents() == Renewed(old(Contents()), key);
      DoneAll(if key in listeners then listeners[key] else [], key, version);
    }

    method Evict()
      modifies this`versions
      ensures versions == LastN(old(versions), CAPACITY)
    {
      while |versions| > CAPACITY
        invariant LastN(versions, CAPACITY) == LastN(old(versions), CAPACITY)
      {
        versions := versions[1..];
      }
    }

    method DoneAll(waiting: seq<nat>, key: string, version: nat)
      modifies this
      ensures Contents() == WakeAll(old(Contents()), waiting, key, version)
    {
      for i := 0 to |waiting|
        invariant Contents() == WakeAll(old(Contents()), waiting[..i], key, version)
      {
        assert waiting[..i + 1][..i] == waiting[..i];
        Done(waiting[i], key, version);
      }
      assert waiting[..|waiting|] == waiting;
    }

    method Done(id: nat, key: string, version: nat)
      modifies this
      ensures Contents() == Wake(old(Contents()), id, key, version)
    {
      var entries := if key in listeners then listeners[key] else [];
      entries := Drop(entries, id);
      if entries == [] { listeners := listeners - {key}; } else { listeners := listeners[key := entries]; }
      answers := answers[id := version];
    }

    method WaitForSignal(id: nat, key: string, after: nat)
      modifies this
      ensures Contents() == Wait(old(Contents()), id, key, after)
    {
      var current := Version(Contents(), key);
      if after != current { answers := answers[id := current]; return; }
      var entries := if key in listeners then listeners[key] else [];
      if |entries| >= MAX_LISTENERS { answers := answers[id := current]; return; }
      listeners := listeners[key := entries + [id]];
    }
  }

  // ------------------------------------------------------------- the runs

  /** `Cancel` is a waiter's timer or abort signal: it answers with the version of
      the moment. */
  datatype Op = NotifyOp(key: string) | WaitOp(id: nat, key: string, after: nat) | Cancel(id: nat, key: string)

  /** Every wait is a new promise. */
  predicate Enabled(s: State, op: Op) {
    match op
    case NotifyOp(_) => true
    case WaitOp(id, _, _) => id !in s.answers && forall key :: key in s.listeners ==> id !in s.listeners[key]
    case Cancel(id, key) => Asleep(s, id, key)
  }

  function Step(s: State, op: Op): State {
    match op
    case NotifyOp(key) => Notify(s, key)
    case WaitOp(id, key, after) => Wait(s, id, key, after)
    case Cancel(id, key) => Wake(s, id, key, Version(s, key))
  }

  predicate Run(s: State, ops: seq<Op>, t: State)
    decreases |ops|
  {
    if ops == [] then s == t else Enabled(s, ops[0]) && Run(Step(s, ops[0]), ops[1..], t)
  }

  function KeysOf(versions: seq<Entry>): set<string> {
    set e | e in versions :: e.key
  }

  predicate DistinctKeys(versions: seq<Entry>) {
    versions == []
    || (DistinctKeys(versions[..|versions| - 1]) && versions[|versions| - 1].key !in KeysOf(versions[..|versions| - 1]))
  }

  predicate TableInv(versions: seq<Entry>, upcoming: nat) {
    && |versions| <= CAPACITY && DistinctKeys(versions)
    && forall e :: e in versions ==> EPOCH < e.version < upcoming
  }

  predicate ListenersInv(s: State) {
    && (forall key :: key in s.listeners ==> 0 < |s.listeners[key]| <= MAX_LISTENERS)
    && (forall key, id :: key in s.listeners && id in s.listeners[key] ==> id !in s.answers)
    && (forall a, b, id :: a in s.listeners && b in s.listeners && id in s.listeners[a] && id in s.listeners[b] ==> a == b)
  }

  predicate Inv(s: State) {
    TableInv(s.versions, s.upcoming) && ListenersInv(s) && s.upcoming > EPOCH
  }

  lemma {:induction false} WakeAllKeepsTable(s: State, ids: seq<nat>, key: string, version: nat)
    ensures WakeAll(s, ids, key, version).versions == s.versions && WakeAll(s, ids, key, version).upcoming == s.upcoming
  {
    if ids != [] { WakeAllKeepsTable(s, ids[..|ids| - 1], key, version); }
  }

  lemma {:induction false} DropShorter(ids: seq<nat>, id: nat)
    ensures |Drop(ids, id)| <= |ids|
  {
    if ids != [] { DropShorter(ids[1..], id); }
  }

  lemma InvWake(s: State, id: nat, key: string, version: nat)
    requires ListenersInv(s) && (forall other :: other in s.listeners && id in s.listeners[other] ==> other == key)
    ensures ListenersInv(Wake(s, id, key, version))
    ensures forall other :: other != key ==> Listening(Wake(s, id, key, version), other) == Listening(s, other)
    ensures forall x :: Asleep(Wake(s, id, key, version), x, key) <==> Asleep(s, x, key) && x != id
  {
    DropShorter(Listening(s, key), id);
  }

  lemma {:induction false} InvWakeAll(s: State, ids: seq<nat>, key: string, version: nat)
    requires ListenersInv(s) && forall x :: x in ids ==> x in Listening(s, key)
    ensures var t := WakeAll(s, ids, key, version);
            && ListenersInv(t)
            && (forall other :: other != key ==> Listening(t, other) == Listening(s, other))
            && (forall x :: Asleep(t, x, key) <==> Asleep(s, x, key) && x !in ids)
    ensures forall x :: x in ids ==> x in WakeAll(s, ids, key, version).answers && WakeAll(s, ids, key, version).answers[x] == version
  {
    if ids != [] {
      var last := ids[|ids| - 1];
      InvWakeAll(s, ids[..|ids| - 1], key, version);
      var mid := WakeAll(s, ids[..|ids| - 1], key, version);
      assert last in Listening(s, key);
      assert forall other :: other in mid.listeners && other != key ==> mid.listeners[other] == Listening(mid, other) == Listening(s, other);
      InvWake(mid, last, key, version);
    }
  }

  /** Over every run the table and each key's waiters stay within their caps. */
  lemma {:induction false} BoundedAlways(ops: seq<Op>, t: State, key: string)
    requires Run(INITIAL, ops, t)
    ensures |t.versions| <= CAPACITY && |Listening(t, key)| <= MAX_LISTENERS
  {
    InvRun(INITIAL, ops, t);
  }

  // --------------------------------------------------------- the table

  lemma KeysAppend(a: seq<Entry>, e: Entry)
    ensures KeysOf(a + [e]) == KeysOf(a) + {e.key}
  {
    assert e in a + [e];
    forall k | k in KeysOf(a) ensures k in KeysOf(a + [e]) {
      var x :| x in a && x.key == k;
      assert x in a + [e];
    }
  }

  lemma KeysLast(versions: seq<Entry>)
    requires versions != []
    ensures KeysOf(versions) == KeysOf(versions[..|versions| - 1]) + {versions[|versions| - 1].key}
  {
    var n := |versions| - 1;
    assert versions == versions[..n] + [versions[n]];
    KeysAppend(versions[..n], versions[n]);
  }

  lemma {:induction false} KeyCount(versions: seq<Entry>)
    requires DistinctKeys(versions)
    ensures |KeysOf(versions)| == |versions|
  {
    if versions != [] {
      KeyCount(versions[..|versions| - 1]);
      KeysLast(versions);
    }
  }

  lemma {:induction false} LatestKnown(versions: seq<Entry>, key: string)
    ensures Latest(versions, key).Some? <==> key in KeysOf(versions)
    ensures Latest(versions, key).Some? ==> Entry(key, Latest(versions, key).value) in versions
  {
    if versions != [] {
      LatestKnown(versions[..|versions| - 1], key);
      KeysLast(versions);
    }
  }

  lemma {:induction false} WithoutKeys(versions: seq<Entry>, key: string)
    ensures KeysOf(Without(versions, key)) == KeysOf(versions) - {key}
    ensures |Without(versions, key)| <= |versions|
    ensures forall e :: e in Without(versions, key) ==> e in versions
  {
    if versions != [] {
      var n := |versions| - 1;
      WithoutKeys(versions[..n], key);
      KeysLast(versions);
      if versions[n].key != key { KeysAppend(Without(versions[..n], key), versions[n]); }
    }
  }

  lemma {:induction false} WithoutDistinct(versions: seq<Entry>, key: string)
    requires DistinctKeys(versions)
    ensures DistinctKeys(Without(versions, key))
  {
    if versions != [] {
      var n := |versions| - 1;
      WithoutDistinct(versions[..n], key);
      WithoutKeys(versions[..n], key);
      var w := Without(versions, key);
      if versions[n].key != key { assert w[..|w| - 1] == Without(versions[..n], key); }
    }
  }

  lemma {:induction false} TailDistinct(versions: seq<Entry>)
    requires DistinctKeys(versions) && versions != []
    ensures DistinctKeys(versions[1..]) && KeysOf(versions[1..]) == KeysOf(versions) - {versions[0].key}
  {
    var n := |versions| - 1;
    KeysLast(versions);
    if n > 0 {
      TailDistinct(versions[..n]);
      assert versions[1..][..n - 1] == versions[..n][1..];
      KeysLast(versions[1..]);
      assert versions[0] in versions[..n];
    }
  }

  lemma Grown(versions: seq<Entry>, key: string, version: nat)
    requires TableInv(versions, version) && version > EPOCH
    ensures var grown := Without(versions, key) + [Entry(key, version)];
            && DistinctKeys(grown) && |grown| <= CAPACITY + 1
            && (forall e :: e in grown ==> EPOCH < e.version < version + 1)
            && Renew(versions, key, version) == if |grown| <= CAPACITY then grown else grown[1..]
  {
    WithoutKeys(versions, key);
    WithoutDistinct(versions, key);
    var grown := Without(versions, key) + [Entry(key, version)];
    assert grown[..|grown| - 1] == Without(versions, key);
  }

  lemma InvRenew(versions: seq<Entry>, key: string, version: nat)
    requires TableInv(versions, version) && version > EPOCH
    ensures TableInv(Renew(versions, key, version), version + 1)
    ensures Latest(Renew(versions, key, version), key) == Some(version)
  {
    Grown(versions, key, version);
    var grown := Without(versions, key) + [Entry(key, version)];
    if |grown| > CAPACITY { TailDistinct(grown); }
  }

  lemma InvNotify(s: State, key: string)
    requires Inv(s)
    ensures Inv(Notify(s, key)) && Notify(s, key).versions == Renew(s.versions, key, s.upcoming)
  {
    var ids := Listening(s, key);
    InvRenew(s.versions, key, s.upcoming);
    WakeAllKeepsTable(Renewed(s, key), ids, key, s.upcoming);
    InvWakeAll(Renewed(s, key), ids, key, s.upcoming);
  }

  /** A notification answers every waiter of its key, with its version, and no other. */
  lemma NotifyWakes(s: State, key: string)
    requires Inv(s)
    ensures forall id :: !Asleep(Notify(s, key), id, key)
    ensures forall other :: other != key ==> Listening(Notify(s, key), other) == Listening(s, other)
    ensures forall id :: Asleep(s, id, key) ==> id in Notify(s, key).answers && Notify(s, key).answers[id] == s.upcoming
  {
    InvWakeAll(Renewed(s, key), Listening(s, key), key, s.upcoming);
  }

  lemma InvStep(s: State, op: Op)
    requires Inv(s) && Enabled(s, op)
    ensures Inv(Step(s, op))
  {
    match op {
      case NotifyOp(key) => InvNotify(s, key);
      case WaitOp(id, key, after) =>
      case Cancel(id, key) => InvWake(s, id, key, Version(s, key));
    }
  }

  lemma {:induction false} InvRun(s: State, ops: seq<Op>, t: State)
    requires Inv(s) && Run(s, ops, t)
    ensures Inv(t)
    decreases |ops|
  {
    if ops != [] {
      InvStep(s, ops[0]);
      InvRun(Step(s, ops[0]), ops[1..], t);
    }
  }

  // ------------------------------------------------------ what is evicted

  /** The entries younger than the one for `key`. */
  function Since(versions: seq<Entry>, key: string): seq<Entry> {
    if versions == [] || versions[|versions| - 1].key == key then []
    else Since(versions[..|versions| - 1], key) + [versions[|versions| - 1]]
  }

  lemma {:induction false} SinceDistinct(versions: seq<Entry>, key: string)
    requires DistinctKeys(versions)
    ensures DistinctKeys(Since(versions, key)) && KeysOf(Since(versions, key)) <= KeysOf(versions)
  {
    var n := |versions| - 1;
    if versions != [] && versions[n].key != key {
      SinceDistinct(versions[..n], key);
      KeysLast(versions);
      KeysAppend(Since(versions[..n], key), versions[n]);
      assert Since(versions, key)[..|Since(versions, key)| - 1] == Since(versions[..n], key);
    }
  }

  lemma {:induction false} SinceWithout(versions: seq<Entry>, key: string, other: string)
    requires key != other
    ensures Since(Without(versions, other), key) == Without(Since(versions, key), other)
    ensures Latest(Without(versions, other), key) == Latest(versions, key)
  {
    if versions != [] {
      var n := |versions| - 1;
      SinceWithout(versions[..n], key, other);
      var w := Without(versions, other);
      if versions[n].key != other {
        assert w[..|w| - 1] == Without(versions[..n], other);
      }
      if versions[n].key != key {
        var since := Since(versions, key);
        assert since[..|since| - 1] == Since(versions[..n], key);
      }
    }
  }

  /** Losing the oldest entry loses `key` exactly when everything else is younger. */
  lemma {:induction false} SinceTrim(versions: seq<Entry>, key: string)
    requires DistinctKeys(versions) && versions != [] && Latest(versions, key).Some?
    ensures if |Since(versions, key)| == |versions| - 1 then Latest(versions[1..], key).None?
            else Latest(versions[1..], key) == Latest(versions, key) && Since(versions[1..], key) == Since(versions, key)
    ensures |Since(versions, key)| < |versions|
  {
    var n := |versions| - 1;
    if n == 0 {
    } else if versions[n].key == key {
      assert versions[1..][..n - 1] == versions[..n][1..];
    } else {
      SinceTrim(versions[..n], key);
      assert versions[1..][..n - 1] == versions[..n][1..];
    }
  }

  lemma GrownSince(versions: seq<Entry>, key: string, other: string, version: nat)
    requires other != key
    ensures var grown := Without(versions, other) + [Entry(other, version)];
            && KeysOf(Since(grown, key)) == KeysOf(Since(versions, key)) + {other}
            && Latest(grown, key) == Latest(versions, key)
  {
    var w := Without(versions, other);
    var grown := w + [Entry(other, version)];
    SinceWithout(versions, key, other);
    WithoutKeys(Since(versions, key), other);
    assert grown[..|w|] == w;
    KeysAppend(Since(w, key), Entry(other, version));
  }

  /** Notifying another key puts it among the younger ones; `key` is forgotten when
      those reach the capacity. */
  lemma RenewOther(versions: seq<Entry>, key: string, other: string, version: nat)
    requires TableInv(versions, version) && version > EPOCH && other != key && Latest(versions, key).Some?
    ensures var younger := KeysOf(Since(versions, key)) + {other};
            var r := Renew(versions, other, version);
            if |younger| >= CAPACITY then Latest(r, key).None?
            else Latest(r, key) == Latest(versions, key) && KeysOf(Since(r, key)) == younger
  {
    var grown := Without(versions, other) + [Entry(other, version)];
    Grown(versions, other, version);
    GrownSince(versions, key, other, version);
    SinceDistinct(grown, key);
    KeyCount(Since(grown, key));
    SinceTrim(grown, key);
  }

  lemma RenewAbsent(versions: seq<Entry>, key: string, other: string, version: nat)
    requires TableInv(versions, version) && version > EPOCH && other != key && Latest(versions, key).None?
    ensures Latest(Renew(versions, other, version), key).None?
  {
    var w := Without(versions, other);
    var grown := w + [Entry(other, version)];
    Grown(versions, other, version);
    WithoutKeys(versions, other);
    LatestKnown(versions, key);
    KeysAppend(w, Entry(other, version));
    if |grown| > CAPACITY { TailDistinct(grown); }
    LatestKnown(Renew(versions, other, version), key);
  }

  // --------------------------------------------------------- over a run

  function NotifiedKeys(ops: seq<Op>): set<string> {
    set op | op in ops && op.NotifyOp? :: op.key
  }

  function Adding(op: Op): set<string> {
    if op.NotifyOp? then {op.key} else {}
  }

  lemma NotifiedHead(ops: seq<Op>)
    requires ops != []
    ensures NotifiedKeys(ops) == NotifiedKeys(ops[1..]) + Adding(ops[0])
  {
    assert ops == [ops[0]] + ops[1..];
  }

  lemma {:induction false} RunSplit(s: State, a: seq<Op>, b: seq<Op>, t: State) returns (mid: State)
    requires Run(s, a + b, t)
    ensures Run(s, a, mid) && Run(mid, b, t)
    decreases |a|
  {
    if a == [] {
      mid := s;
      assert a + b == b;
    } else {
      assert (a + b)[1..] == a[1..] + b;
      mid := RunSplit(Step(s, a[0]), a[1..], b, t);
    }
  }

  lemma StepTable(s: State, op: Op)
    ensures Step(s, op).versions == if op.NotifyOp? then Renew(s.versions, op.key, s.upcoming) else s.versions
    ensures Step(s, op).upcoming >= s.upcoming
  {
    if op.NotifyOp? { WakeAllKeepsTable(Renewed(s, op.key), Listening(s, op.key), op.key, s.upcoming); }
  }

  lemma SubsetSize(a: set<string>, b: set<string>)
    requires a <= b
    ensures |a| <= |b|
  {
    assert b == a + (b - a);
  }

  lemma {:induction false} AbsentStays(s: State, ops: seq<Op>, t: State, key: string)
    requires Inv(s) && Run(s, ops, t) && Latest(s.versions, key).None? && key !in NotifiedKeys(ops)
    ensures Latest(t.versions, key).None?
    decreases |ops|
  {
    if ops != [] {
      StepTable(s, ops[0]);
      InvStep(s, ops[0]);
      NotifiedHead(ops);
      if ops[0].NotifyOp? { RenewAbsent(s.versions, key, ops[0].key, s.upcoming); }
      AbsentStays(Step(s, ops[0]), ops[1..], t, key);
    }
  }

  /** What becomes of a key's version when the keys in `younger` are renewed after it. */
  predicate Fate(before: Option<nat>, younger: set<string>, after: Option<nat>) {
    if |younger| >= CAPACITY then after.None? else after == before
  }

  predicate Followed(s: State, key: string, younger: set<string>) {
    Latest(s.versions, key).Some? && KeysOf(Since(s.versions, key)) == younger
  }

  lemma StepFate(s: State, op: Op, key: string, younger: set<string>)
    requires Inv(s) && Enabled(s, op) && op != NotifyOp(key) && Followed(s, key, younger) && |younger| < CAPACITY
    ensures Fate(Latest(s.versions, key), younger + Adding(op), Latest(Step(s, op).versions, key))
    ensures |younger + Adding(op)| < CAPACITY ==> Followed(Step(s, op), key, younger + Adding(op))
  {
    StepTable(s, op);
    if op.NotifyOp? { RenewOther(s.versions, key, op.key, s.upcoming); }
    else { assert younger + Adding(op) == younger; }
  }

  lemma UnionSwap(a: set<string>, b: set<string>, c: set<string>)
    ensures a + (b + c) == a + c + b
  {
  }

  lemma FateJoins(before: Option<nat>, now: set<string>, mid: Option<nat>, rest: set<string>, after: Option<nat>)
    requires Fate(before, now, mid)
    requires if |now| >= CAPACITY then after.None? else Fate(mid, now + rest, after)
    ensures Fate(before, now + rest, after)
  {
    SubsetSize(now, now + rest);
  }

  /** A key outlives a run without its own notification exactly while the keys
      notified after it are fewer than the capacity. */
  lemma {:induction false} EvictedExactly(s: State, ops: seq<Op>, t: State, key: string, younger: set<string>)
    requires Inv(s) && Run(s, ops, t) && key !in NotifiedKeys(ops)
    requires Followed(s, key, younger) && |younger| < CAPACITY
    ensures Fate(Latest(s.versions, key), younger + NotifiedKeys(ops), Latest(t.versions, key))
    decreases |ops|, 0
  {
    if ops == [] {
      assert younger + NotifiedKeys(ops) == younger;
    } else {
      var op, mid := ops[0], Step(s, ops[0]);
      var now := younger + Adding(op);
      NotifiedHead(ops);
      UnionSwap(younger, NotifiedKeys(ops[1..]), Adding(op));
      StepFate(s, op, key, younger);
      InvStep(s, op);
      Remainder(mid, ops[1..], t, key, now);
      FateJoins(Latest(s.versions, key), now, Latest(mid.versions, key), NotifiedKeys(ops[1..]), Latest(t.versions, key));
    }
  }

  lemma {:induction false} Remainder(s: State, ops: seq<Op>, t: State, key: string, now: set<string>)
    requires Inv(s) && Run(s, ops, t) && key !in NotifiedKeys(ops)
    requires if |now| >= CAPACITY then Latest(s.versions, key).None? else Followed(s, key, now)
    ensures if |now| >= CAPACITY then Latest(t.versions, key).None?
            else Fate(Latest(s.versions, key), now + NotifiedKeys(ops), Latest(t.versions, key))
    decreases |ops|, 1
  {
    if |now| >= CAPACITY { AbsentStays(s, ops, t, key); } else { EvictedExactly(s, ops, t, key, now); }
  }

  lemma {:induction false} DrawsGrow(s: State, ops: seq<Op>, t: State)
    requires Run(s, ops, t)
    ensures t.upcoming >= s.upcoming
    decreases |ops|
  {
    if ops != [] {
      StepTable(s, ops[0]);
      DrawsGrow(Step(s, ops[0]), ops[1..], t);
    }
  }

  lemma VersionBelow(s: State, key: string)
    requires Inv(s)
    ensures Version(s, key) < s.upcoming
    ensures Latest(s.versions, key).Some? ==> Version(s, key) > EPOCH
  {
    LatestKnown(s.versions, key);
  }

  lemma SinceRenewed(versions: seq<Entry>, key: string, version: nat)
    requires TableInv(versions, version) && version > EPOCH
    ensures KeysOf(Since(Renew(versions, key, version), key)) == {}
  {
    InvRenew(versions, key, version);
    Grown(versions, key, version);
  }

  /** A version read before the last notification of its key still looks current
      exactly when it was the initial one and the key has since been forgotten. */
  lemma StaleVersion(s: State, before: seq<Op>, key: string, since: seq<Op>, t: State)
    requires Inv(s) && Run(s, before + [NotifyOp(key)] + since, t) && key !in NotifiedKeys(since)
    ensures Version(t, key) == Version(s, key) <==> Version(s, key) == EPOCH && |NotifiedKeys(since)| >= CAPACITY
  {
    var b := RunSplit(s, before + [NotifyOp(key)], since, t);
    var a := RunSplit(s, before, [NotifyOp(key)], b);
    assert [NotifyOp(key)][1..] == [];
    InvRun(s, before, a);
    InvNotify(a, key);
    InvRenew(a.versions, key, a.upcoming);
    SinceRenewed(a.versions, key, a.upcoming);
    StepTable(a, NotifyOp(key));
    EvictedExactly(b, since, t, key, {});
    assert {} + NotifiedKeys(since) == NotifiedKeys(since);
    DrawsGrow(s, before, a);
    VersionBelow(s, key);
  }

  lemma {:induction false} AnswersGrow(s: State, ops: seq<Op>, t: State, id: nat)
    requires Run(s, ops, t) && id in s.answers
    ensures id in t.answers
    decreases |ops|
  {
    if ops != [] {
      if ops[0].NotifyOp? { AnswersGrowWakeAll(Renewed(s, ops[0].key), Listening(s, ops[0].key), ops[0].key, s.upcoming, id); }
      AnswersGrow(Step(s, ops[0]), ops[1..], t, id);
    }
  }

  lemma {:induction false} AnswersGrowWakeAll(s: State, ids: seq<nat>, key: string, version: nat, id: nat)
    requires id in s.answers
    ensures id in WakeAll(s, ids, key, version).answers
  {
    if ids != [] { AnswersGrowWakeAll(s, ids[..|ids| - 1], key, version, id); }
  }

  /** Who is still asleep has not been notified since falling asleep. */
  lemma {:induction false} AsleepMeansQuiet(s: State, ops: seq<Op>, t: State, id: nat, key: string)
    requires Inv(s) && Run(s, ops, t) && Asleep(t, id, key) && (Asleep(s, id, key) || id in s.answers)
    ensures Asleep(s, id, key) && key !in NotifiedKeys(ops)
    decreases |ops|
  {
    InvRun(s, ops, t);
    if id in s.answers { AnswersGrow(s, ops, t, id); assert false; }
    if ops != [] {
      var mid := Step(s, ops[0]);
      InvStep(s, ops[0]);
      NotifiedHead(ops);
      if ops[0].NotifyOp? { NotifyWakes(s, ops[0].key); }
      AsleepMeansQuiet(mid, ops[1..], t, id, key);
    }
  }

  lemma {:induction false} LastNotified(ops: seq<Op>, key: string) returns (i: nat)
    requires key in NotifiedKeys(ops)
    ensures i < |ops| && ops[i] == NotifyOp(key) && key !in NotifiedKeys(ops[i + 1..])
  {
    if key in NotifiedKeys(ops[1..]) {
      i := LastNotified(ops[1..], key);
      i := i + 1;
      assert ops[i + 1..] == ops[1..][i..];
    } else {
      i := 0;
      NotifiedHead(ops);
    }
  }

  lemma NotifiedSuffix(ops: seq<Op>, i: nat)
    requires i <= |ops|
    ensures NotifiedKeys(ops[i..]) <= NotifiedKeys(ops)
  {
  }

  lemma VersionUnchangedMeansQuiet(s: State, before: seq<Op>, key: string, a: State)
    requires Inv(s) && Run(s, before, a) && Version(a, key) == Version(s, key)
    requires Version(s, key) != EPOCH || |NotifiedKeys(before) - {key}| < CAPACITY
    ensures key !in NotifiedKeys(before)
  {
    if key in NotifiedKeys(before) {
      var i := LastNotified(before, key);
      var since := before[i + 1..];
      assert before == before[..i] + [NotifyOp(key)] + since;
      StaleVersion(s, before[..i], key, since, a);
      NotifiedSuffix(before, i + 1);
      SubsetSize(NotifiedKeys(since), NotifiedKeys(before) - {key});
      assert false;
    }
  }

  lemma WaitEffect(a: State, id: nat, key: string, version: nat)
    requires Inv(a) && Enabled(a, WaitOp(id, key, version))
    ensures var b := Step(a, WaitOp(id, key, version));
            && Inv(b) && (id in b.answers || Asleep(b, id, key))
            && (Asleep(b, id, key) ==> Version(a, key) == version)
  {
    InvStep(a, WaitOp(id, key, version));
  }

  /** No lost wakeup. A waiter reads the version, then waits with it. If it is
      asleep at the end, its key was notified at no point after the read, unless it
      read the initial version and, between read and wait, the capacity's worth of
      other keys was notified. */
  lemma NoLostWakeup(s: State, before: seq<Op>, id: nat, key: string, after: seq<Op>, t: State)
    requires Inv(s) && Run(s, before + [WaitOp(id, key, Version(s, key))] + after, t) && Asleep(t, id, key)
    requires Version(s, key) != EPOCH || |NotifiedKeys(before) - {key}| < CAPACITY
    ensures key !in NotifiedKeys(before) && key !in NotifiedKeys(after)
  {
    var wait := WaitOp(id, key, Version(s, key));
    var b := RunSplit(s, before + [wait], after, t);
    var a := RunSplit(s, before, [wait], b);
    assert [wait][1..] == [];
    InvRun(s, before, a);
    WaitEffect(a, id, key, Version(s, key));
    AsleepMeansQuiet(b, after, t, id, key);
    VersionUnchangedMeansQuiet(s, before, key, a);
  }

  // ------------------------------------------- an eviction that misleads

  function Name(n: nat): string {
    if n == 0 then "" else Name(n - 1) + "x"
  }

  /** Notifications of `n` different keys. */
  function Others(n: nat): seq<Op> {
    if n == 0 then [] else Others(n - 1) + [NotifyOp(Name(n))]
  }

  function AfterOthers(s: State, n: nat): State {
    if n == 0 then s else Step(AfterOthers(s, n - 1), NotifyOp(Name(n)))
  }

  lemma {:induction false} NameLength(n: nat)
    ensures |Name(n)| == n && forall i :: 0 <= i < n ==> Name(n)[i] == 'x'
  {
    if n > 0 { NameLength(n - 1); }
  }

  lemma {:induction false} RunSnoc(s: State, ops: seq<Op>, t: State, op: Op)
    requires Run(s, ops, t) && Enabled(t, op)
    ensures Run(s, ops + [op], Step(t, op))
    decreases |ops|
  {
    if ops == [] {
      assert ([] + [op])[1..] == [];
    } else {
      RunSnoc(Step(s, ops[0]), ops[1..], t, op);
      assert (ops + [op])[1..] == ops[1..] + [op];
    }
  }

  lemma NotifyQuietly(s: State, key: string)
    requires s.listeners == map[]
    ensures Step(s, NotifyOp(key)).listeners == map[] && Step(s, NotifyOp(key)).answers == s.answers
  {
    assert WakeAll(Renewed(s, key), [], key, s.upcoming) == Renewed(s, key);
  }

  lemma NotifiedSnoc(ops: seq<Op>, key: string)
    ensures NotifiedKeys(ops + [NotifyOp(key)]) == NotifiedKeys(ops) + {key}
  {
    assert NotifyOp(key) in ops + [NotifyOp(key)];
    forall k | k in NotifiedKeys(ops) ensures k in NotifiedKeys(ops + [NotifyOp(key)]) {
      assert NotifyOp(k) in ops + [NotifyOp(key)];
    }
  }

  lemma {:induction false} OthersRun(s: State, n: nat)
    requires s.listeners == map[]
    ensures Run(s, Others(n), AfterOthers(s, n))
    ensures AfterOthers(s, n).listeners == map[] && AfterOthers(s, n).answers == s.answers
  {
    if n > 0 {
      OthersRun(s, n - 1);
      RunSnoc(s, Others(n - 1), AfterOthers(s, n - 1), NotifyOp(Name(n)));
      NotifyQuietly(AfterOthers(s, n - 1), Name(n));
    }
  }

  predicate AllShort(keys: set<string>, n: nat) {
    forall k :: k in keys ==> |k| <= n && forall i :: 0 <= i < |k| ==> k[i] == 'x'
  }

  lemma OneMoreName(keys: set<string>, n: nat)
    requires n > 0 && AllShort(keys, n - 1)
    ensures AllShort(keys + {Name(n)}, n) && |keys + {Name(n)}| == |keys| + 1
  {
    NameLength(n);
    assert Name(n) !in keys;
  }

  ghost function OtherNames(n: nat): set<string> {
    if n == 0 then {} else OtherNames(n - 1) + {Name(n)}
  }

  lemma {:induction false} OthersAreNamed(n: nat)
    ensures NotifiedKeys(Others(n)) == OtherNames(n)
  {
    if n > 0 {
      OthersAreNamed(n - 1);
      NotifiedSnoc(Others(n - 1), Name(n));
    }
  }

  lemma {:induction false} OthersAreDifferent(n: nat)
    ensures |OtherNames(n)| == n && AllShort(OtherNames(n), n)
  {
    if n > 0 {
      OthersAreDifferent(n - 1);
      OneMoreName(OtherNames(n - 1), n);
    }
  }

  lemma RunCons(s: State, op: Op, ops: seq<Op>, t: State)
    requires Enabled(s, op) && Run(Step(s, op), ops, t)
    ensures Run(s, [op] + ops, t)
  {
    assert ([op] + ops)[1..] == ops;
  }

  lemma EvictedByOthers(s: State, key: string, others: seq<Op>, t: State)
    requires Inv(s) && Version(s, key) == EPOCH && Run(Step(s, NotifyOp(key)), others, t)
    requires key !in NotifiedKeys(others) && |NotifiedKeys(others)| >= CAPACITY
    ensures Run(s, [NotifyOp(key)] + others, t) && Version(t, key) == EPOCH
  {
    RunCons(s, NotifyOp(key), others, t);
    assert [] + [NotifyOp(key)] + others == [NotifyOp(key)] + others;
    StaleVersion(s, [], key, others, t);
  }

  /** From a table nobody uses: a key is notified and then forgotten, and the version
      read at the start looks current again. */
  lemma EvictedVersionLooksCurrent(key: string, n: nat)
    requires key != "" && key[0] != 'x' && n >= CAPACITY
    ensures var t := AfterOthers(Step(INITIAL, NotifyOp(key)), n);
            && Run(INITIAL, [NotifyOp(key)] + Others(n), t)
            && Version(t, key) == Version(INITIAL, key) == EPOCH && t.listeners == map[] && t.answers == map[]
  {
    var notified := Step(INITIAL, NotifyOp(key));
    NotifyQuietly(INITIAL, key);
    OthersRun(notified, n);
    OthersAreDifferent(n);
    OthersAreNamed(n);
    EvictedByOthers(INITIAL, key, Others(n), AfterOthers(notified, n));
  }
}
