/** The backend's index of one open workspace: files, the running byte total, and
    the numbered log of recent changes. */
module WorkspaceIndex {
  import opened Base

  const LOG_LIMIT := 500

  datatype File = File(path: string, size: int, revision: string, dirty: bool)

  /** A manifest or change entry as the desktop sends it. */
  datatype RawEntry = RawEntry(path: string, size: Option<int>, revision: Option<string>, dirty: bool)

  /** `Upserted` covers `created` and `updated`: its entry may name another path. */
  datatype Change =
    | Deleted(path: string)
    | Moved(fromPath: string, path: string)
    | Upserted(path: string, entry: RawEntry)

  datatype Logged = Logged(number: nat, change: Change)

  /** `log` is newest first. */
  datatype Index = Index(
    files: map<string, File>, indexedBytes: int, complete: bool, dirtyPaths: set<string>,
    log: seq<Logged>, changeSeq: nat)

  const EMPTY := Index(map[], 0, false, {}, [], 0)

  function NormaliseEntry(raw: RawEntry): Option<File> {
    if raw.path == "" then None
    else Some(File(raw.path, OrElse(raw.size, 0), OrElse(raw.revision, ""), raw.dirty))
  }

  function SizeAt(files: map<string, File>, path: string): int {
    if path in files then files[path].size else 0
  }

  function Put(ix: Index, entry: File): Index {
    ix.(files := ix.files[entry.path := entry], indexedBytes := ix.indexedBytes - SizeAt(ix.files, entry.path) + entry.size)
  }

  function IngestEntry(ix: Index, raw: RawEntry): Index {
    match NormaliseEntry(raw)
    case None => ix
    case Some(entry) => Put(ix, entry.(dirty := entry.dirty || entry.path in ix.dirtyPaths))
  }

  function IngestEntries(ix: Index, raws: seq<RawEntry>): Index {
    if raws == [] then ix else IngestEntry(IngestEntries(ix, raws[..|raws| - 1]), raws[|raws| - 1])
  }

  function Cleared(ix: Index): Index {
    ix.(files := map[], indexedBytes := 0, complete := false)
  }

  function Ingest(ix: Index, raws: seq<RawEntry>, reset: bool): Index {
    IngestEntries(if reset then Cleared(ix) else ix, raws)
  }

  function WithFile(ix: Index, change: Change): Index {
    match change
    case Deleted(path) => ix.(files := ix.files - {path}, indexedBytes := ix.indexedBytes - SizeAt(ix.files, path))
    case Moved(from, path) =>
      if from in ix.files then ix.(files := (ix.files - {from})[path := ix.files[from].(path := path)]) else ix
    case Upserted(_, raw) =>
      match NormaliseEntry(raw)
      case None => ix
      case Some(entry) => Put(ix, entry)
  }

  function FirstN<T>(s: seq<T>, n: nat): seq<T> {
    if |s| <= n then s else s[..n]
  }

  function Apply(ix: Index, change: Change): Index {
    WithFile(ix, change).(changeSeq := ix.changeSeq + 1,
                          log := FirstN([Logged(ix.changeSeq + 1, change)] + ix.log, LOG_LIMIT))
  }

  function MarkDirty(ix: Index, dirty: set<string>): Index {
    ix.(dirtyPaths := dirty, files := map path | path in ix.files :: ix.files[path].(dirty := path in dirty))
  }

  /** `filter(c => c.seq > since)` and `reverse()`. */
  function ChangesSince(log: seq<Logged>, since: int): seq<Logged> {
    if log == [] then []
    else ChangesSince(log[1..], since) + if log[0].number > since then [log[0]] else []
  }

  // --------------------------------------------------------- the object

  class Workspace {
    var files: map<string, File>
    var indexedBytes: int
    var indexComplete: bool
    var dirtyPaths: set<string>
    var changeLog: seq<Logged>
    var changeSeq: nat

    function Contents(): Index
      reads this
    {
      Index(files, indexedBytes, indexComplete, dirtyPaths, changeLog, changeSeq)
    }

    constructor ()
      ensures Contents() == EMPTY
    {
      files, indexedBytes, indexComplete, dirtyPaths, changeLog, changeSeq := map[], 0, false, {}, [], 0;
    }

    method IngestManifest(entries: seq<RawEntry>, reset: bool)
      modifies this
      ensures Contents() == Ingest(old(Contents()), entries, reset)
    {
      if reset { Clear(); }
      ghost var start := Contents();
      for i := 0 to |entries|
        invariant Contents() == IngestEntries(start, entries[..i])
      {
        assert entries[..i + 1][..i] == entries[..i];
        var entry := NormaliseEntry(entries[i]);
        if entry.None? { continue; }
        PutEntry(entry.value.(dirty := entry.value.dirty || entry.value.path in dirtyPaths));
      }
      assert entries[..|entries|] == entries;
    }

    method Clear()
      modifies this
      ensures Contents() == Cleared(old(Contents()))
    {
      files, indexedBytes, indexComplete := map[], 0, false;
    }

    method PutEntry(entry: File)
      modifies this
      ensures Contents() == Put(old(Contents()), entry)
    {
      if entry.path in files { indexedBytes := indexedBytes - files[entry.path].size; }
      files := files[entry.path := entry];
      indexedBytes := indexedBytes + entry.size;
    }

    method ApplyChange(change: Change)
      modifies this
      ensures Contents() == Apply(old(Contents()), change)
    {
      match change {
        case Deleted(path) =>
          if path in files { indexedBytes := indexedBytes - files[path].size; }
          files := files - {path};
        case Moved(from, path) =>
          if from in files {
            var existing := files[from];
            files := files - {from};
            files := files[path := existing.(path := path)];
          }
        case Upserted(_, raw) =>
          var entry := NormaliseEntry(raw);
          if entry.Some? { PutEntry(entry.value); }
      }
      changeSeq := changeSeq + 1;
      changeLog := [Logged(changeSeq, change)] + changeLog;
      if |changeLog| > LOG_LIMIT { changeLog := changeLog[..LOG_LIMIT]; }
    }
  }

  // ------------------------------------------------------------ byte total

  ghost function Total(files: map<string, File>): int {
    if files == map[] then 0
    else
      var path :| path in files;
      files[path].size + Total(files - {path})
  }

  lemma {:induction false} TotalWithout(files: map<string, File>, path: string)
    requires path in files
    ensures Total(files) == files[path].size + Total(files - {path})
    decreases |files|
  {
    var first :| first in files && Total(files) == files[first].size + Total(files - {first});
    if first != path {
      TotalWithout(files - {first}, path);
      TotalWithout(files - {path}, first);
      assert files - {first} - {path} == files - {path} - {first};
    }
  }

  lemma TotalRemoved(files: map<string, File>, path: string)
    ensures Total(files - {path}) == Total(files) - SizeAt(files, path)
  {
    if path in files { TotalWithout(files, path); } else { assert files - {path} == files; }
  }

  lemma TotalPut(files: map<string, File>, path: string, file: File)
    ensures Total(files[path := file]) == Total(files) - SizeAt(files, path) + file.size
  {
    TotalRemoved(files, path);
    TotalWithout(files[path := file], path);
    assert files[path := file] - {path} == files - {path};
  }

  /** How far the running total is above the true one. */
  ghost function Excess(ix: Index): int {
    ix.indexedBytes - Total(ix.files)
  }

  lemma {:induction false} IngestKeepsExcess(ix: Index, raws: seq<RawEntry>)
    ensures Excess(IngestEntries(ix, raws)) == Excess(ix)
  {
    if raws != [] {
      var before := IngestEntries(ix, raws[..|raws| - 1]);
      IngestKeepsExcess(ix, raws[..|raws| - 1]);
      var entry := NormaliseEntry(raws[|raws| - 1]);
      if entry.Some? {
        TotalPut(before.files, entry.value.path, entry.value.(dirty := entry.value.dirty || entry.value.path in before.dirtyPaths));
      }
    }
  }

  /** The bytes a move drops from the index without subtracting them. */
  function Overwritten(files: map<string, File>, change: Change): int {
    if change.Moved? && change.fromPath in files && change.fromPath != change.path then SizeAt(files, change.path) else 0
  }

  lemma ChangeAddsOverwritten(ix: Index, change: Change)
    ensures Excess(Apply(ix, change)) == Excess(ix) + Overwritten(ix.files, change)
  {
    match change {
      case Deleted(path) => TotalRemoved(ix.files, path);
      case Moved(from, path) =>
        if from in ix.files {
          TotalRemoved(ix.files, from);
          TotalPut(ix.files - {from}, path, ix.files[from].(path := path));
        }
      case Upserted(_, raw) =>
        var entry := NormaliseEntry(raw);
        if entry.Some? { TotalPut(ix.files, entry.value.path, entry.value); }
    }
  }

  lemma {:induction false} DirtyKeepsTotal(files: map<string, File>, dirty: set<string>)
    ensures Total(map path | path in files :: files[path].(dirty := path in dirty)) == Total(files)
    decreases |files|
  {
    var marked := map path | path in files :: files[path].(dirty := path in dirty);
    if files != map[] {
      var path :| path in files;
      DirtyKeepsTotal(files - {path}, dirty);
      TotalWithout(files, path);
      TotalWithout(marked, path);
      assert marked - {path} == map p | p in files - {path} :: (files - {path})[p].(dirty := p in dirty);
    } else {
      assert marked == map[];
    }
  }

  // ---------------------------------------------------------------- runs

  /** `Reopened` is registering the same project again. */
  datatype Event =
    | Manifest(entries: seq<RawEntry>, reset: bool)
    | Changed(change: Change)
    | EditorState(dirty: set<string>)
    | Reopened
    | IndexComplete

  function Step(ix: Index, e: Event): Index {
    match e
    case Manifest(entries, reset) => Ingest(ix, entries, reset)
    case Changed(change) => Apply(ix, change)
    case EditorState(dirty) => MarkDirty(ix, dirty)
    case Reopened => Cleared(ix)
    case IndexComplete => ix.(complete := true)
  }

  function Run(ix: Index, events: seq<Event>): Index {
    if events == [] then ix else Step(Run(ix, events[..|events| - 1]), events[|events| - 1])
  }

  predicate Resets(e: Event) {
    e.Reopened? || (e.Manifest? && e.reset)
  }

  /** Bytes overwritten by moves since the index was last cleared. */
  function OverwrittenSinceReset(ix: Index, events: seq<Event>): int {
    if events == [] then 0
    else
      var before, e := events[..|events| - 1], events[|events| - 1];
      if Resets(e) then 0
      else OverwrittenSinceReset(ix, before) + if e.Changed? then Overwritten(Run(ix, before).files, e.change) else 0
  }

  /** After every run, the running total is the sum of the indexed sizes plus exactly
      the bytes that moves overwrote since the last reset. */
  lemma {:induction false} IndexedBytesExactly(events: seq<Event>)
    ensures var ix := Run(EMPTY, events); ix.indexedBytes == Total(ix.files) + OverwrittenSinceReset(EMPTY, events)
  {
    if events != [] {
      var before, e := events[..|events| - 1], events[|events| - 1];
      var ix := Run(EMPTY, before);
      IndexedBytesExactly(before);
      match e {
        case Manifest(entries, reset) => IngestKeepsExcess(if reset then Cleared(ix) else ix, entries);
        case Changed(change) => ChangeAddsOverwritten(ix, change);
        case EditorState(dirty) => DirtyKeepsTotal(ix.files, dirty);
        case Reopened =>
        case IndexComplete =>
      }
    }
  }

  predicate MovesOntoFree(events: seq<Event>) {
    forall i :: 0 <= i < |events| && events[i].Changed? ==>
      Overwritten(Run(EMPTY, events[..i]).files, events[i].change) == 0
  }

  lemma {:induction false} NothingOverwritten(events: seq<Event>)
    requires MovesOntoFree(events)
    ensures OverwrittenSinceReset(EMPTY, events) == 0
  {
    if events != [] {
      var before := events[..|events| - 1];
      forall i | 0 <= i < |before| && before[i].Changed?
        ensures Overwritten(Run(EMPTY, before[..i]).files, before[i].change) == 0
      {
        assert before[..i] == events[..i] && before[i] == events[i];
      }
      NothingOverwritten(before);
    }
  }

  /** So without moves onto an indexed path of non-zero size the total is right. */
  lemma IndexedBytesAreTheSum(events: seq<Event>)
    requires MovesOntoFree(events)
    ensures Run(EMPTY, events).indexedBytes == Total(Run(EMPTY, events).files)
  {
    IndexedBytesExactly(events);
    NothingOverwritten(events);
  }

  function Created(path: string, size: int): Event {
    Changed(Upserted(path, RawEntry(path, Some(size), None, false)))
  }

  /** A move onto an indexed file leaves that file's bytes in the total for good. */
  lemma MoveOntoIndexedDrifts(size: int, lost: int)
    ensures var events := [Created("a", size), Created("b", lost), Changed(Moved("a", "b"))];
            var ix := Run(EMPTY, events);
            ix.indexedBytes == Total(ix.files) + lost
  {
    var one := [Created("a", size)];
    var two := one + [Created("b", lost)];
    var three := two + [Changed(Moved("a", "b"))];
    assert three == [Created("a", size), Created("b", lost), Changed(Moved("a", "b"))];
    assert one[..0] == [] && two[..1] == one && three[..2] == two;
    assert "a" in Run(EMPTY, one).files;
    var ix := Run(EMPTY, two);
    assert ix == Step(Run(EMPTY, one), Created("b", lost));
    assert "a" in ix.files && "b" in ix.files && ix.files["b"].size == lost;
    assert OverwrittenSinceReset(EMPTY, one) == 0;
    assert OverwrittenSinceReset(EMPTY, two) == 0;
    IndexedBytesExactly(three);
  }

  // ------------------------------------------- what is indexed, by the events

  datatype Shown = Shown(size: int, revision: string, dirty: bool)

  /** The files the editor last reported as unsaved. */
  function Unsaved(events: seq<Event>): set<string> {
    if events == [] then {}
    else if events[|events| - 1].EditorState? then events[|events| - 1].dirty
    else Unsaved(events[..|events| - 1])
  }

  /** The last entry of a manifest chunk about a path. */
  function LastEntry(entries: seq<RawEntry>, path: string): Option<RawEntry> {
    if entries == [] then None
    else
      var raw := entries[|entries| - 1];
      if raw.path == path && path != "" then Some(raw) else LastEntry(entries[..|entries| - 1], path)
  }

  function ShownBy(raw: RawEntry, unsaved: bool): Shown {
    Shown(if raw.size.Some? then raw.size.value else 0, if raw.revision.Some? then raw.revision.value else "", raw.dirty || unsaved)
  }

  /** What is known of a path after the events, read off them from the last one back. */
  function FileAfter(events: seq<Event>, path: string): Option<Shown>
    decreases |events|
  {
    if events == [] then None
    else
      var before := events[..|events| - 1];
      match events[|events| - 1]
      case Manifest(entries, reset) =>
        var raw := LastEntry(entries, path);
        if raw.Some? then Some(ShownBy(raw.value, path in Unsaved(before)))
        else if reset then None else FileAfter(before, path)
      case Changed(Deleted(gone)) => if gone == path then None else FileAfter(before, path)
      case Changed(Moved(from, to)) =>
        if FileAfter(before, from).None? || (path != from && path != to) then FileAfter(before, path)
        else if path == to then FileAfter(before, from) else None
      case Changed(Upserted(_, raw)) =>
        if raw.path == path && path != "" then Some(ShownBy(raw, false)) else FileAfter(before, path)
      case EditorState(dirty) =>
        (match FileAfter(before, path)
         case None => None
         case Some(shown) => Some(shown.(dirty := path in dirty)))
      case Reopened => None
      case IndexComplete => FileAfter(before, path)
  }

  /** The index is complete when it was said to be after the last reset. */
  function CompleteAfter(events: seq<Event>): bool {
    if events == [] then false
    else
      var e := events[|events| - 1];
      e.IndexComplete? || (!Resets(e) && CompleteAfter(events[..|events| - 1]))
  }

  predicate HoldsFile(files: map<string, File>, path: string, shown: Option<Shown>) {
    && (path in files <==> shown.Some?)
    && (shown.Some? ==> files[path] == File(path, shown.value.size, shown.value.revision, shown.value.dirty))
  }

  lemma {:induction false} IngestedFile(ix: Index, raws: seq<RawEntry>, path: string, before: Option<Shown>)
    requires HoldsFile(ix.files, path, before)
    ensures var raw := LastEntry(raws, path);
            && IngestEntries(ix, raws).dirtyPaths == ix.dirtyPaths && IngestEntries(ix, raws).complete == ix.complete
            && HoldsFile(IngestEntries(ix, raws).files, path, if raw.Some? then Some(ShownBy(raw.value, path in ix.dirtyPaths)) else before)
  {
    if raws != [] { IngestedFile(ix, raws[..|raws| - 1], path, before); }
  }

  /** Over every run: a path is indexed, with its size, revision and unsaved mark, as
      the events say; so are the unsaved files and whether the index is complete. */
  lemma {:induction false} IndexByEvents(events: seq<Event>, path: string)
    ensures var ix := Run(EMPTY, events);
            && HoldsFile(ix.files, path, FileAfter(events, path))
            && ix.dirtyPaths == Unsaved(events) && ix.complete == CompleteAfter(events)
    decreases |events|
  {
    if events != [] {
      var before, e := events[..|events| - 1], events[|events| - 1];
      var ix := Run(EMPTY, before);
      IndexByEvents(before, path);
      if e.Manifest? {
        IngestedFile(if e.reset then Cleared(ix) else ix, e.entries, path, if e.reset then None else FileAfter(before, path));
      }
      if e.Changed? && e.change.Moved? { IndexByEvents(before, e.change.fromPath); }
    }
  }

  /** Does this event, after those before it, say anything about the path? */
  predicate Concerns(before: seq<Event>, e: Event, path: string) {
    match e
    case Manifest(entries, reset) => reset || LastEntry(entries, path).Some?
    case Changed(Deleted(gone)) => gone == path
    case Changed(Moved(from, to)) => FileAfter(before, from).Some? && (path == from || path == to)
    case Changed(Upserted(_, raw)) => raw.path == path && path != ""
    case EditorState(_) => false
    case Reopened => true
    case IndexComplete => false
  }

  predicate PutsThere(e: Event, path: string) {
    match e
    case Manifest(entries, _) => LastEntry(entries, path).Some?
    case Changed(Moved(_, to)) => to == path
    case Changed(Upserted(_, _)) => true
    case _ => false
  }

  predicate LastWord(events: seq<Event>, i: nat, path: string) {
    i < |events| && Concerns(events[..i], events[i], path) && forall k :: i < k < |events| ==> !Concerns(events[..k], events[k], path)
  }

  lemma {:induction false} LastWordDecides(events: seq<Event>, i: nat, path: string)
    requires LastWord(events, i, path)
    ensures FileAfter(events, path).Some? <==> PutsThere(events[i], path)
    decreases |events|
  {
    var n := |events| - 1;
    if i < n {
      assert events[..n][..i] == events[..i];
      forall k | i < k < n ensures !Concerns(events[..n][..k], events[..n][k], path) { assert events[..n][..k] == events[..k]; }
      LastWordDecides(events[..n], i, path);
      assert !Concerns(events[..n], events[n], path);
    }
  }

  lemma {:induction false} NobodySpoke(events: seq<Event>, path: string)
    requires forall k :: 0 <= k < |events| ==> !Concerns(events[..k], events[k], path)
    ensures FileAfter(events, path).None?
    decreases |events|
  {
    if events != [] {
      var n := |events| - 1;
      forall k | 0 <= k < n ensures !Concerns(events[..n][..k], events[..n][k], path) { assert events[..n][..k] == events[..k]; }
      NobodySpoke(events[..n], path);
      assert !Concerns(events[..n], events[n], path);
    }
  }

  /** In particular: it is indexed exactly when the last event that concerns it put it
      there. */
  lemma IndexedExactly(events: seq<Event>, path: string)
    ensures path in Run(EMPTY, events).files <==> exists i: nat :: LastWord(events, i, path) && PutsThere(events[i], path)
  {
    IndexByEvents(events, path);
    if exists k: nat :: k < |events| && Concerns(events[..k], events[k], path) {
      var i := LastSpeaker(events, path);
      LastWordDecides(events, i, path);
      forall j: nat | LastWord(events, j, path) ensures j == i {
        assert Concerns(events[..j], events[j], path) && Concerns(events[..i], events[i], path);
      }
    } else {
      NobodySpoke(events, path);
    }
  }

  lemma {:induction false} LastSpeaker(events: seq<Event>, path: string) returns (i: nat)
    requires exists k: nat :: k < |events| && Concerns(events[..k], events[k], path)
    ensures LastWord(events, i, path)
  {
    var n := |events| - 1;
    if Concerns(events[..n], events[n], path) {
      i := n;
    } else {
      var k: nat :| k < |events| && Concerns(events[..k], events[k], path);
      assert k < n && events[..n][..k] == events[..k] && events[..n][k] == events[k];
      i := LastSpeaker(events[..n], path);
      assert events[..n][..i] == events[..i];
      forall j | i < j < |events| ensures !Concerns(events[..j], events[j], path) {
        if j < n { assert events[..n][..j] == events[..j] && events[..n][j] == events[j]; }
      }
    }
  }

  // ------------------------------------------------------------ change log

  /** Every change applied so far, in order. */
  function History(events: seq<Event>): seq<Change> {
    if events == [] then []
    else History(events[..|events| - 1]) + if events[|events| - 1].Changed? then [events[|events| - 1].change] else []
  }

  predicate LogMatches(ix: Index, history: seq<Change>) {
    && ix.changeSeq == |history| && |ix.log| == Min(LOG_LIMIT, |history|)
    && forall i :: 0 <= i < |ix.log| ==> ix.log[i] == Logged(|history| - i, history[|history| - 1 - i])
  }

  lemma {:induction false} IngestKeepsLog(ix: Index, raws: seq<RawEntry>)
    ensures IngestEntries(ix, raws).log == ix.log && IngestEntries(ix, raws).changeSeq == ix.changeSeq
  {
    if raws != [] { IngestKeepsLog(ix, raws[..|raws| - 1]); }
  }

  lemma {:induction false} LogIsHistory(events: seq<Event>)
    ensures LogMatches(Run(EMPTY, events), History(events))
  {
    if events != [] {
      var before, e := events[..|events| - 1], events[|events| - 1];
      LogIsHistory(before);
      var ix := Run(EMPTY, before);
      if e.Manifest? { IngestKeepsLog(if e.reset then Cleared(ix) else ix, e.entries); }
    }
  }

  /** A log numbered downwards from `top`, cut at `since`. */
  lemma {:induction false} SinceNumbers(log: seq<Logged>, top: int, since: int)
    requires forall i :: 0 <= i < |log| ==> log[i].number == top - i
    ensures var n := Max(0, Min(top - since, |log|));
            && |ChangesSince(log, since)| == n
            && forall i :: 0 <= i < n ==> ChangesSince(log, since)[i] == log[n - 1 - i]
  {
    if log != [] { SinceNumbers(log[1..], top - 1, since); }
  }

  function Numbered(changes: seq<Change>, first: nat): seq<Logged> {
    seq(|changes|, i requires 0 <= i < |changes| => Logged(first + i, changes[i]))
  }

  /** After every run, asking for what came after change `since` yields exactly those
      changes, numbered and oldest first, as long as the log still holds them. */
  lemma ChangesSinceIsHistory(events: seq<Event>, since: nat)
    requires since <= |History(events)| && |History(events)| - since <= LOG_LIMIT
    ensures ChangesSince(Run(EMPTY, events).log, since) == Numbered(History(events)[since..], since + 1)
  {
    LogIsHistory(events);
    var log := Run(EMPTY, events).log;
    SinceNumbers(log, |History(events)|, since);
  }

  /** It is complete exactly then: past the limit only the newest entries are left. */
  lemma ChangesSinceCompleteExactly(events: seq<Event>, since: nat)
    requires since <= |History(events)|
    ensures |ChangesSince(Run(EMPTY, events).log, since)| == |History(events)| - since
            <==> |History(events)| - since <= LOG_LIMIT
  {
    LogIsHistory(events);
    SinceNumbers(Run(EMPTY, events).log, |History(events)|, since);
  }

  // -------------------------------------------------------- consistency

  predicate PathsMatch(files: map<string, File>) {
    forall path :: path in files ==> files[path].path == path
  }

  lemma {:induction false} IngestKeepsPaths(ix: Index, raws: seq<RawEntry>)
    requires PathsMatch(ix.files)
    ensures PathsMatch(IngestEntries(ix, raws).files)
  {
    if raws != [] { IngestKeepsPaths(ix, raws[..|raws| - 1]); }
  }

  /** Every file is indexed under its own path, after every run. */
  lemma {:induction false} IndexedUnderOwnPath(events: seq<Event>)
    ensures PathsMatch(Run(EMPTY, events).files)
  {
    if events != [] {
      var before, e := events[..|events| - 1], events[|events| - 1];
      var ix := Run(EMPTY, before);
      IndexedUnderOwnPath(before);
      if e.Manifest? { IngestKeepsPaths(if e.reset then Cleared(ix) else ix, e.entries); }
    }
  }
}
