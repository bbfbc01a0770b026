/** What an MCP client must have read before it may overwrite or delete a file: the
    read ledger of a session and the checks on writes, batches and deletes. */
module WriteGuards {
  import opened Base
  import opened Paths

  // ------------------------------------------------------------ the ledger

  datatype Key = Key(workspaceId: string, path: string)
  type Ledger = map<Key, string>

  /** None is the error the path normaliser throws. */
  function ReadKey(workspaceId: string, path: string): Option<Key> {
    match NormalizeRelPath(path)
    case Ok(canonical) => Some(Key(workspaceId, canonical))
    case Err(_) => None
  }

  function Noted(ledger: Ledger, key: Option<Key>, revision: string): Ledger {
    if key.Some? then ledger[key.value := revision] else ledger
  }

  function Withdrawn(ledger: Ledger, key: Option<Key>): Ledger {
    if key.Some? then ledger - {key.value} else ledger
  }

  function LastRead(ledger: Ledger, key: Key): Option<string> {
    if key in ledger then Some(ledger[key]) else None
  }

  class McpSession {
    var readRevisions: Ledger
    var writtenPaths: set<Key>

    constructor (shared: Ledger)
      ensures readRevisions == shared && writtenPaths == {}
    {
      readRevisions, writtenPaths := shared, {};
    }

    method NoteRead(workspaceId: string, path: string, revision: string) returns (ok: bool)
      modifies this`readRevisions
      ensures ok <==> ReadKey(workspaceId, path).Some?
      ensures readRevisions == Noted(old(readRevisions), ReadKey(workspaceId, path), revision)
    {
      var key := ReadKey(workspaceId, path);
      if key.None? { return false; }
      readRevisions := readRevisions[key.value := revision];
      return true;
    }

    /** `notePartialRead` and `noteDelete`. */
    method Forget(workspaceId: string, path: string) returns (ok: bool)
      modifies this`readRevisions
      ensures ok <==> ReadKey(workspaceId, path).Some?
      ensures readRevisions == Withdrawn(old(readRevisions), ReadKey(workspaceId, path))
    {
      var key := ReadKey(workspaceId, path);
      if key.None? { return false; }
      readRevisions := readRevisions - {key.value};
      return true;
    }

    method NoteWrite(workspaceId: string, path: string, revision: string) returns (ok: bool)
      modifies this
      ensures ok <==> ReadKey(workspaceId, path).Some?
      ensures readRevisions == Noted(old(readRevisions), ReadKey(workspaceId, path), revision)
      ensures writtenPaths == old(writtenPaths) + if ok then {Key(workspaceId, path)} else {}
    {
      ok := NoteRead(workspaceId, path, revision);
      if ok { writtenPaths := writtenPaths + {Key(workspaceId, path)}; }
    }

    /** None is the thrown error. */
    method HasFreshRead(workspaceId: string, path: string, revision: string) returns (fresh_: Option<bool>)
      ensures fresh_.Some? <==> ReadKey(workspaceId, path).Some?
      ensures fresh_.Some? ==> (fresh_.value <==> LastRead(readRevisions, ReadKey(workspaceId, path).value) == Some(revision))
    {
      var key := ReadKey(workspaceId, path);
      if key.None? { return None; }
      return Some(key.value in readRevisions && readRevisions[key.value] == revision);
    }
  }

  // ------------------------------------------------------------ the checks

  datatype IndexEntry = IndexEntry(revision: string, binary: bool)
  type Files = map<string, IndexEntry>

  /** One entry of a write call; None is a value that is not a string, and an absent
      revision or action is the empty text. */
  datatype Change =
    | NotAnObject
    | Change(path: Option<string>, content: Option<string>, baseRevision: string, action: string)

  datatype Code = BadRequest | TooLarge | FileNotFound | Conflict | StaleRevision | UnreadFile

  datatype Validated =
    | Create(path: string, content: string)
    | Update(path: string, content: string, existing: IndexEntry)

  datatype Check<T> = Pass(value: T) | Fail(code: Code)

  function Utf8Bytes(s: string): nat {
    if s == [] then 0
    else Utf8Bytes(s[1..]) + if s[0] < '\U{80}' then 1 else if s[0] < '\U{800}' then 2 else if s[0] < '\U{10000}' then 3 else 4
  }

  predicate KnownAction(action: string) {
    action == "" || action == "create" || action == "update"
  }

  /** The last question of every check that replaces content: has this client seen
      exactly the revision that is there? */
  function SeenCheck<T>(ledger: Ledger, workspaceId: string, path: string, entry: IndexEntry, baseRevision: string, value: T): Check<T> {
    if baseRevision == "" then Fail(BadRequest)
    else if baseRevision != entry.revision then Fail(StaleRevision)
    else
      match ReadKey(workspaceId, path)
      case None => Fail(BadRequest)
      case Some(key) => if LastRead(ledger, key) == Some(entry.revision) then Pass(value) else Fail(UnreadFile)
  }

  function ValidateWrite(ledger: Ledger, workspaceId: string, files: Files, maxBytes: nat, change: Change): Check<Validated> {
    if change.NotAnObject? || change.path.None? || NormalizeRelPath(change.path.value).Err? || change.content.None? then Fail(BadRequest)
    else
      var path := NormalizeRelPath(change.path.value).path;
      var content := change.content.value;
      if Utf8Bytes(content) > maxBytes then Fail(TooLarge)
      else if !KnownAction(change.action) then Fail(BadRequest)
      else if path !in files then
        if change.action == "update" then Fail(FileNotFound)
        else if change.baseRevision != "" then Fail(BadRequest)
        else Pass(Create(path, content))
      else if change.action == "create" then Fail(Conflict)
      else if files[path].binary then Fail(BadRequest)
      else SeenCheck(ledger, workspaceId, path, files[path], change.baseRevision, Update(path, content, files[path]))
  }

  function ValidateDelete(ledger: Ledger, workspaceId: string, files: Files, rawPath: string, baseRevision: string): Check<string> {
    match NormalizeRelPath(rawPath)
    case Err(_) => Fail(BadRequest)
    case Ok(path) =>
      if path !in files then Fail(FileNotFound)
      else SeenCheck(ledger, workspaceId, path, files[path], baseRevision, path)
  }

  // ----------------------------------------------------------- whole batches

  datatype Problem = Problem(path: Option<string>, code: Code)
  datatype BatchResult = Accepted(validated: seq<Validated>) | Rejected(problems: seq<Problem>) | Malformed

  function PathOf(change: Change): Option<string> {
    if change.NotAnObject? then None else change.path
  }

  datatype Progress = Progress(seen: set<string>, validated: seq<Validated>, problems: seq<Problem>)

  function ScanOne(p: Progress, check: Check<Validated>, change: Change): Progress {
    match check
    case Fail(code) => p.(problems := p.problems + [Problem(PathOf(change), code)])
    case Pass(v) =>
      if v.path in p.seen then p.(problems := p.problems + [Problem(PathOf(change), BadRequest)])
      else p.(seen := p.seen + {v.path}, validated := p.validated + [v])
  }

  /** The check of one entry, as the batch calls it. */
  type Checker = Change -> Check<Validated>

  function CheckerFor(ledger: Ledger, workspaceId: string, files: Files, maxBytes: nat): Checker {
    change => ValidateWrite(ledger, workspaceId, files, maxBytes, change)
  }

  function Scan(check: Checker, changes: seq<Change>): Progress {
    if changes == [] then Progress({}, [], [])
    else
      var n := |changes| - 1;
      ScanOne(Scan(check, changes[..n]), check(changes[n]), changes[n])
  }

  function Batch(check: Checker, changes: seq<Change>): BatchResult {
    if |changes| == 0 || |changes| > 100 then Malformed
    else
      var p := Scan(check, changes);
      if p.problems != [] then Rejected(p.problems) else Accepted(p.validated)
  }

  lemma ScanStep(check: Checker, changes: seq<Change>, i: nat)
    requires i < |changes|
    ensures Scan(check, changes[..i + 1]) == ScanOne(Scan(check, changes[..i]), check(changes[i]), changes[i])
  {
    assert changes[..i + 1][..i] == changes[..i];
  }

  method ValidateWriteBatch(ledger: Ledger, workspaceId: string, files: Files, maxBytes: nat, changes: seq<Change>)
    returns (r: BatchResult)
    ensures r == Batch(CheckerFor(ledger, workspaceId, files, maxBytes), changes)
  {
    if |changes| == 0 || |changes| > 100 { return Malformed; }
    var seen: set<string>, validated: seq<Validated>, problems: seq<Problem> := {}, [], [];
    var check := CheckerFor(ledger, workspaceId, files, maxBytes);
    for i := 0 to |changes|
      invariant Progress(seen, validated, problems) == Scan(check, changes[..i])
    {
      ScanStep(check, changes, i);
      var result := check(changes[i]);
      if result.Fail? {
        problems := problems + [Problem(PathOf(changes[i]), result.code)];
      } else if result.value.path in seen {
        problems := problems + [Problem(PathOf(changes[i]), BadRequest)];
      } else {
        seen := seen + {result.value.path};
        validated := validated + [result.value];
      }
    }
    assert changes[..|changes|] == changes;
    return if problems != [] then Rejected(problems) else Accepted(validated);
  }

  predicate AllPass(check: Checker, changes: seq<Change>) {
    forall i :: 0 <= i < |changes| ==> check(changes[i]).Pass?
  }

  predicate SamePath(a: Check<Validated>, b: Check<Validated>) {
    a.Pass? && b.Pass? && a.value.path == b.value.path
  }

  predicate DistinctPaths(check: Checker, changes: seq<Change>) {
    forall i, k :: 0 <= i < k < |changes| ==> !SamePath(check(changes[i]), check(changes[k]))
  }

  function PathsOf(validated: seq<Validated>): set<string> {
    set v | v in validated :: v.path
  }

  /** Every entry is accepted with the value its own check gives it, in order. */
  predicate Mirrors(check: Checker, changes: seq<Change>, validated: seq<Validated>) {
    && |validated| == |changes|
    && forall i :: 0 <= i < |changes| ==> check(changes[i]) == Pass(validated[i])
  }

  lemma {:induction false} ScanCounts(check: Checker, changes: seq<Change>)
    ensures var p := Scan(check, changes); |p.validated| + |p.problems| == |changes| && p.seen == PathsOf(p.validated)
  {
    if changes != [] {
      var n := |changes| - 1;
      ScanCounts(check, changes[..n]);
      var before, p := Scan(check, changes[..n]), Scan(check, changes);
      if p.validated != before.validated {
        var v := check(changes[n]).value;
        assert v in p.validated;
        assert forall x :: x in p.validated <==> x in before.validated || x == v;
        assert PathsOf(p.validated) == PathsOf(before.validated) + {v.path};
      }
    }
  }

  lemma {:induction false} CleanScan(check: Checker, changes: seq<Change>)
    requires Scan(check, changes).problems == []
    ensures AllPass(check, changes) && DistinctPaths(check, changes) && Mirrors(check, changes, Scan(check, changes).validated)
  {
    if changes != [] {
      var n := |changes| - 1;
      var before := Scan(check, changes[..n]);
      CleanScan(check, changes[..n]);
      ScanCounts(check, changes[..n]);
      forall i | 0 <= i < n ensures check(changes[i]) == Pass(before.validated[i]) && before.validated[i].path in before.seen {
        assert changes[..n][i] == changes[i];
        assert before.validated[i] in before.validated;
      }
      forall i, k | 0 <= i < k < |changes| ensures !SamePath(check(changes[i]), check(changes[k])) {
        if k < n { assert !SamePath(check(changes[..n][i]), check(changes[..n][k])); }
      }
    }
  }

  lemma {:induction false} PassingScan(check: Checker, changes: seq<Change>)
    requires AllPass(check, changes) && DistinctPaths(check, changes)
    ensures Scan(check, changes).problems == []
  {
    if changes != [] {
      var n := |changes| - 1;
      assert forall i :: 0 <= i < n ==> changes[..n][i] == changes[i];
      PassingScan(check, changes[..n]);
      CleanScan(check, changes[..n]);
      ScanCounts(check, changes[..n]);
      var before := Scan(check, changes[..n]);
      forall v | v in before.validated ensures v.path != check(changes[n]).value.path {
        var i :| 0 <= i < n && before.validated[i] == v;
        assert !SamePath(check(changes[i]), check(changes[n]));
        assert check(changes[..n][i]) == Pass(v);
      }
    }
  }

  /** A batch is accepted exactly when it has 1 to 100 entries, each passes on its
      own, and no two write the same path. */
  lemma BatchAcceptedExactly(check: Checker, changes: seq<Change>)
    ensures Batch(check, changes).Accepted? <==> 1 <= |changes| <= 100 && AllPass(check, changes) && DistinctPaths(check, changes)
    ensures Batch(check, changes).Accepted? ==> Mirrors(check, changes, Batch(check, changes).validated)
  {
    if Scan(check, changes).problems == [] { CleanScan(check, changes); }
    if AllPass(check, changes) && DistinctPaths(check, changes) { PassingScan(check, changes); }
  }

  lemma {:induction false} FailureReported(check: Checker, changes: seq<Change>, k: nat)
    requires k < |changes| && check(changes[k]).Fail?
    ensures Problem(PathOf(changes[k]), check(changes[k]).code) in Scan(check, changes).problems
  {
    var n := |changes| - 1;
    if k < n { FailureReported(check, changes[..n], k); }
  }

  /** A rejection reports every entry that fails on its own, with its own reason, in
      one answer. */
  lemma RejectionReportsAll(check: Checker, changes: seq<Change>, k: nat)
    requires |changes| <= 100 && k < |changes| && check(changes[k]).Fail?
    ensures var r := Batch(check, changes);
            && r.Rejected? && |r.problems| <= |changes|
            && Problem(PathOf(changes[k]), check(changes[k]).code) in r.problems
  {
    FailureReported(check, changes, k);
    ScanCounts(check, changes);
  }

  // --------------------------------------------------- what was last seen

  /** What a client was shown or did. The path is the file's own, as the tools pass it
      on: already normalised once from what the client spelled. The ledger normalises
      it again. */
  datatype Event =
    | FullRead(workspaceId: string, path: string, revision: string)
    | PartialRead(workspaceId: string, path: string)
    | OwnWrite(workspaceId: string, path: string, revision: string)
    | OwnDelete(workspaceId: string, path: string)

  function KeyOf(e: Event): Option<Key> {
    ReadKey(e.workspaceId, e.path)
  }

  function StepLedger(ledger: Ledger, e: Event): Ledger {
    if e.FullRead? || e.OwnWrite? then Noted(ledger, KeyOf(e), e.revision) else Withdrawn(ledger, KeyOf(e))
  }

  function LedgerAfter(events: seq<Event>): Ledger {
    if events == [] then map[] else StepLedger(LedgerAfter(events[..|events| - 1]), events[|events| - 1])
  }

  /** The revision the latest event under a ledger key showed in full, if it did. */
  function LastSeen(events: seq<Event>, key: Key): Option<string> {
    if events == [] then None
    else
      var e := events[|events| - 1];
      if KeyOf(e) != Some(key) then LastSeen(events[..|events| - 1], key)
      else if e.FullRead? || e.OwnWrite? then Some(e.revision) else None
  }

  /** The revision the latest event about this very file showed in full, if it did. */
  function LastShown(events: seq<Event>, workspaceId: string, path: string): Option<string> {
    if events == [] then None
    else
      var e := events[|events| - 1];
      if e.workspaceId != workspaceId || e.path != path then LastShown(events[..|events| - 1], workspaceId, path)
      else if e.FullRead? || e.OwnWrite? then Some(e.revision) else None
  }

  /** The ledger is the client's latest view under every key. */
  lemma {:induction false} LedgerIsLastSeen(events: seq<Event>, key: Key)
    ensures LastRead(LedgerAfter(events), key) == LastSeen(events, key)
  {
    if events != [] { LedgerIsLastSeen(events[..|events| - 1], key); }
  }

  /** The path an entry that passes would write. */
  function Target(change: Change): string {
    if change.Change? && change.path.Some? && NormalizeRelPath(change.path.value).Ok?
    then NormalizeRelPath(change.path.value).path else ""
  }

  predicate WellFormedUpdate(change: Change, maxBytes: nat) {
    && change.Change? && change.path.Some? && NormalizeRelPath(change.path.value).Ok? && change.content.Some?
    && Utf8Bytes(change.content.value) <= maxBytes && (change.action == "" || change.action == "update")
  }

  predicate Updates(r: Check<Validated>) {
    r.Pass? && r.value.Update?
  }

  /** Over every history of reads and writes: an update is accepted exactly when it is
      well formed, names an indexed text file, and quotes the revision that is both
      the current one and the one last seen under the file's ledger key. */
  lemma {:induction false} UpdateAcceptedExactly(events: seq<Event>, workspaceId: string, files: Files, maxBytes: nat, change: Change)
    ensures var path := Target(change);
            Updates(ValidateWrite(LedgerAfter(events), workspaceId, files, maxBytes, change)) <==>
            && WellFormedUpdate(change, maxBytes) && path in files && !files[path].binary
            && change.baseRevision != "" && change.baseRevision == files[path].revision
            && ReadKey(workspaceId, path).Some?
            && LastSeen(events, ReadKey(workspaceId, path).value) == Some(files[path].revision)
  {
    var path := Target(change);
    if ReadKey(workspaceId, path).Some? { LedgerIsLastSeen(events, ReadKey(workspaceId, path).value); }
  }

  predicate Shows(e: Event, revision: string) {
    (e.FullRead? || e.OwnWrite?) && e.revision == revision
  }

  /** This event is the last one under the ledger key, and showed the revision. */
  predicate Licenses(events: seq<Event>, i: nat, key: Key, revision: string) {
    && i < |events| && Shows(events[i], revision) && KeyOf(events[i]) == Some(key)
    && forall k :: i < k < |events| ==> KeyOf(events[k]) != Some(key)
  }

  lemma LicensesLonger(events: seq<Event>, e: Event, i: nat, key: Key, revision: string)
    requires Licenses(events, i, key, revision) && KeyOf(e) != Some(key)
    ensures Licenses(events + [e], i, key, revision)
  {
    var longer := events + [e];
    forall k | i < k < |longer| ensures KeyOf(longer[k]) != Some(key) {
      if k < |events| { assert longer[k] == events[k]; }
    }
  }

  lemma LicensesShorter(events: seq<Event>, e: Event, i: nat, key: Key, revision: string)
    requires Licenses(events + [e], i, key, revision) && i < |events|
    ensures Licenses(events, i, key, revision)
  {
    var longer := events + [e];
    forall k | i < k < |events| ensures KeyOf(events[k]) != Some(key) { assert longer[k] == events[k]; }
  }

  lemma {:induction false} SeenIsLicensed(events: seq<Event>, key: Key, revision: string) returns (i: nat)
    requires LastSeen(events, key) == Some(revision)
    ensures Licenses(events, i, key, revision)
  {
    var n := |events| - 1;
    if KeyOf(events[n]) != Some(key) {
      i := SeenIsLicensed(events[..n], key, revision);
      LicensesLonger(events[..n], events[n], i, key, revision);
      assert events[..n] + [events[n]] == events;
    } else {
      i := n;
    }
  }

  lemma SeenBefore(events: seq<Event>, e: Event, key: Key)
    requires KeyOf(e) != Some(key)
    ensures LastSeen(events + [e], key) == LastSeen(events, key)
  {
    assert (events + [e])[..|events|] == events;
  }

  lemma {:induction false} LicensedIsSeen(events: seq<Event>, i: nat, key: Key, revision: string)
    requires Licenses(events, i, key, revision)
    ensures LastSeen(events, key) == Some(revision)
  {
    var n := |events| - 1;
    if i < n {
      var earlier, e := events[..n], events[n];
      assert KeyOf(e) != Some(key);
      assert earlier + [e] == events;
      LicensesShorter(earlier, e, i, key, revision);
      LicensedIsSeen(earlier, i, key, revision);
      SeenBefore(earlier, e, key);
    }
  }

  ghost predicate Licensed(events: seq<Event>, key: Option<Key>, revision: string) {
    key.Some? && exists i: nat :: Licenses(events, i, key.value, revision)
  }

  /** The update is well formed and quotes the current revision of an indexed text file. */
  predicate CurrentUpdate(files: Files, maxBytes: nat, change: Change) {
    var path := Target(change);
    && WellFormedUpdate(change, maxBytes) && path in files && !files[path].binary
    && change.baseRevision != "" && change.baseRevision == files[path].revision
  }

  /** Over every history: such an update is accepted exactly when the last event about
      any file that shares the target's ledger key showed the current revision. */
  lemma LicensedExactly(events: seq<Event>, workspaceId: string, files: Files, maxBytes: nat, change: Change)
    requires CurrentUpdate(files, maxBytes, change)
    ensures Updates(ValidateWrite(LedgerAfter(events), workspaceId, files, maxBytes, change))
       <==> Licensed(events, ReadKey(workspaceId, Target(change)), change.baseRevision)
  {
    UpdateAcceptedExactly(events, workspaceId, files, maxBytes, change);
    var key, revision := ReadKey(workspaceId, Target(change)), change.baseRevision;
    if key.Some? && LastSeen(events, key.value) == Some(revision) { var i := SeenIsLicensed(events, key.value, revision); }
    if Licensed(events, key, revision) {
      var i: nat :| Licenses(events, i, key.value, revision);
      LicensedIsSeen(events, i, key.value, revision);
    }
  }

  /** In particular, one read of a file licenses the update of exactly the files that
      share its ledger key. */
  lemma ReadLicensesExactly(workspaceId: string, read: string, files: Files, maxBytes: nat, change: Change)
    requires CurrentUpdate(files, maxBytes, change)
    ensures Updates(ValidateWrite(LedgerAfter([FullRead(workspaceId, read, change.baseRevision)]), workspaceId, files, maxBytes, change))
       <==> ReadKey(workspaceId, Target(change)).Some? && ReadKey(workspaceId, read) == ReadKey(workspaceId, Target(change))
  {
    var events := [FullRead(workspaceId, read, change.baseRevision)];
    LicensedExactly(events, workspaceId, files, maxBytes, change);
    if ReadKey(workspaceId, Target(change)).Some? && ReadKey(workspaceId, read) == ReadKey(workspaceId, Target(change)) {
      assert Licenses(events, 0, ReadKey(workspaceId, read).value, change.baseRevision);
    }
  }

  // ----------------------------------------- whether it was the file itself

  predicate Over(events: seq<Event>, paths: set<string>) {
    forall i :: 0 <= i < |events| ==> events[i].path in paths
  }

  predicate ShareKey(p: string, q: string) {
    NormalizeRelPath(p).Ok? && NormalizeRelPath(p) == NormalizeRelPath(q)
  }

  /** No two of these files share a ledger key. */
  predicate ToldApart(paths: set<string>) {
    forall p, q :: p in paths && q in paths && ShareKey(p, q) ==> p == q
  }

  /** Some spelling of a client names this file. */
  ghost predicate CanBeNamed(p: string) {
    exists raw :: NormalizeRelPath(raw) == Ok(p)
  }

  lemma SameFile(e: Event, paths: set<string>, workspaceId: string, path: string)
    requires ToldApart(paths) && e.path in paths && path in paths && ReadKey(workspaceId, path).Some?
    ensures KeyOf(e) == ReadKey(workspaceId, path) <==> e.workspaceId == workspaceId && e.path == path
  {
    if KeyOf(e) == ReadKey(workspaceId, path) { assert ShareKey(path, e.path); }
  }

  lemma {:induction false} SeenIsShown(events: seq<Event>, paths: set<string>, workspaceId: string, path: string)
    requires Over(events, paths) && ToldApart(paths) && path in paths && ReadKey(workspaceId, path).Some?
    ensures LastSeen(events, ReadKey(workspaceId, path).value) == LastShown(events, workspaceId, path)
  {
    if events != [] {
      var n := |events| - 1;
      SameFile(events[n], paths, workspaceId, path);
      SeenIsShown(events[..n], paths, workspaceId, path);
    }
  }

  /** An accepted update replaces what this client was last shown, in full, of the very
      file it replaces. */
  predicate NotBlind(events: seq<Event>, workspaceId: string, files: Files, maxBytes: nat, change: Change) {
    Updates(ValidateWrite(LedgerAfter(events), workspaceId, files, maxBytes, change)) ==>
      && CurrentUpdate(files, maxBytes, change)
      && LastShown(events, workspaceId, Target(change)) == Some(change.baseRevision)
  }

  ghost predicate NeverBlind(workspaceId: string, paths: set<string>) {
    forall events, files, maxBytes: nat, change ::
      Over(events, paths) && Target(change) in paths ==> NotBlind(events, workspaceId, files, maxBytes, change)
  }

  lemma ToldApartIsNotBlind(paths: set<string>, events: seq<Event>, workspaceId: string, files: Files, maxBytes: nat, change: Change)
    requires ToldApart(paths) && Over(events, paths) && Target(change) in paths
    ensures NotBlind(events, workspaceId, files, maxBytes, change)
  {
    UpdateAcceptedExactly(events, workspaceId, files, maxBytes, change);
    if ReadKey(workspaceId, Target(change)).Some? { SeenIsShown(events, paths, workspaceId, Target(change)); }
  }

  lemma SharedKeyIsBlind(workspaceId: string, raw: string, p: string, q: string)
    requires p != q && NormalizeRelPath(raw) == Ok(p) && ShareKey(p, q)
    ensures var change := Change(Some(raw), Some(""), "1", "");
            Target(change) == p && !NotBlind([FullRead(workspaceId, q, "1")], workspaceId, map[p := IndexEntry("1", false)], 0, change)
  {
    var events := [FullRead(workspaceId, q, "1")];
    var change := Change(Some(raw), Some(""), "1", "");
    assert Target(change) == p;
    ReadLicensesExactly(workspaceId, q, map[p := IndexEntry("1", false)], 0, change);
    assert LastShown(events, workspaceId, p) == LastShown(events[..0], workspaceId, p) == None;
  }

  lemma BlindIsNotSafe(workspaceId: string, paths: set<string>, events: seq<Event>, files: Files, maxBytes: nat, change: Change)
    requires Over(events, paths) && Target(change) in paths && !NotBlind(events, workspaceId, files, maxBytes, change)
    ensures !NeverBlind(workspaceId, paths)
  {
  }

  lemma SharedKeyIsNotSafe(workspaceId: string, paths: set<string>, p: string, q: string)
    requires p in paths && q in paths && p != q && ShareKey(p, q) && CanBeNamed(p)
    ensures !NeverBlind(workspaceId, paths)
  {
    var raw :| NormalizeRelPath(raw) == Ok(p);
    SharedKeyIsBlind(workspaceId, raw, p, q);
    BlindIsNotSafe(workspaceId, paths, [FullRead(workspaceId, q, "1")], map[p := IndexEntry("1", false)], 0, Change(Some(raw), Some(""), "1", ""));
  }

  /** Which sets of files are safe: over all histories of these files, every accepted
      update of one of them replaces what was last shown of it exactly when no two of
      them share a ledger key. The files are ones a caller can name. */
  lemma NeverBlindExactly(workspaceId: string, paths: set<string>)
    requires forall p :: p in paths ==> CanBeNamed(p)
    ensures NeverBlind(workspaceId, paths) <==> ToldApart(paths)
  {
    if ToldApart(paths) {
      forall events, files, maxBytes: nat, change | Over(events, paths) && Target(change) in paths
        ensures NotBlind(events, workspaceId, files, maxBytes, change)
      {
        ToldApartIsNotBlind(paths, events, workspaceId, files, maxBytes, change);
      }
    } else {
      var p, q :| p in paths && q in paths && ShareKey(p, q) && p != q;
      SharedKeyIsNotSafe(workspaceId, paths, p, q);
    }
  }

  predicate AllCanonical(events: seq<Event>) {
    forall i :: 0 <= i < |events| ==> Canonical(events[i].path)
  }

  function PathsIn(events: seq<Event>): set<string> {
    set i | 0 <= i < |events| :: events[i].path
  }

  lemma PathsCovered(events: seq<Event>, path: string)
    requires AllCanonical(events) && Canonical(path)
    ensures Over(events, PathsIn(events) + {path})
    ensures forall p :: p in PathsIn(events) + {path} ==> Canonical(p)
  {
  }

  lemma CanonicalToldApart(paths: set<string>)
    requires forall p :: p in paths ==> Canonical(p)
    ensures ToldApart(paths)
  {
  }

  /** Canonical paths never share a key: when the target and every file read or written
      so far have one, an accepted update replaces the revision the index holds and
      this client was last shown of that file. */
  lemma AcceptedUpdateWasSeen(events: seq<Event>, workspaceId: string, files: Files, maxBytes: nat, change: Change)
    requires Updates(ValidateWrite(LedgerAfter(events), workspaceId, files, maxBytes, change))
    requires Canonical(Target(change)) && AllCanonical(events)
    ensures var path := Target(change);
            && path in files && change.Change? && change.baseRevision == files[path].revision
            && LastShown(events, workspaceId, path) == Some(files[path].revision)
  {
    var paths := PathsIn(events) + {Target(change)};
    PathsCovered(events, Target(change));
    CanonicalToldApart(paths);
    ToldApartIsNotBlind(paths, events, workspaceId, files, maxBytes, change);
  }

  /** And so for every update of an accepted batch. */
  lemma {:induction false} AcceptedBatchWasSeen(events: seq<Event>, workspaceId: string, files: Files, maxBytes: nat, changes: seq<Change>, i: nat)
    requires var r := Batch(CheckerFor(LedgerAfter(events), workspaceId, files, maxBytes), changes);
             r.Accepted? && i < |r.validated| && r.validated[i].Update? && Canonical(r.validated[i].path)
    requires AllCanonical(events)
    ensures var v := Batch(CheckerFor(LedgerAfter(events), workspaceId, files, maxBytes), changes).validated[i];
            && v.path in files && v.existing == files[v.path]
            && LastShown(events, workspaceId, v.path) == Some(files[v.path].revision)
  {
    var check := CheckerFor(LedgerAfter(events), workspaceId, files, maxBytes);
    BatchAcceptedExactly(check, changes);
    var v := Batch(check, changes).validated[i];
    assert check(changes[i]) == Pass(v);
    assert Target(changes[i]) == v.path;
    AcceptedUpdateWasSeen(events, workspaceId, files, maxBytes, changes[i]);
  }

  lemma {:induction false} DeleteAcceptedExactly(events: seq<Event>, workspaceId: string, files: Files, rawPath: string, baseRevision: string)
    ensures ValidateDelete(LedgerAfter(events), workspaceId, files, rawPath, baseRevision).Pass? <==>
            && NormalizeRelPath(rawPath).Ok?
            && var path := NormalizeRelPath(rawPath).path;
            && path in files && baseRevision != "" && baseRevision == files[path].revision
            && ReadKey(workspaceId, path).Some?
            && LastSeen(events, ReadKey(workspaceId, path).value) == Some(files[path].revision)
  {
    if NormalizeRelPath(rawPath).Ok? {
      var key := ReadKey(workspaceId, NormalizeRelPath(rawPath).path);
      if key.Some? { LedgerIsLastSeen(events, key.value); }
    }
  }

  /** A partial read or a delete of the file withdraws the permission, whatever was
      read before. */
  lemma {:induction false} PartialReadWithdraws(events: seq<Event>, e: Event, files: Files, maxBytes: nat, change: Change)
    requires (e.PartialRead? || e.OwnDelete?) && KeyOf(e).Some? && ReadKey(e.workspaceId, Target(change)) == KeyOf(e)
    ensures !Updates(ValidateWrite(LedgerAfter(events + [e]), e.workspaceId, files, maxBytes, change))
  {
    UpdateAcceptedExactly(events + [e], e.workspaceId, files, maxBytes, change);
  }

  /** So does a change by anyone else, until the file is read again: whatever revision
      the update quotes. */
  lemma {:induction false} ForeignChangeWithdraws(events: seq<Event>, workspaceId: string, files: Files, maxBytes: nat, change: Change, changed: IndexEntry)
    requires Canonical(Target(change)) && LastSeen(events, Key(workspaceId, Target(change))) != Some(changed.revision)
    ensures !Updates(ValidateWrite(LedgerAfter(events), workspaceId, files[Target(change) := changed], maxBytes, change))
  {
    UpdateAcceptedExactly(events, workspaceId, files[Target(change) := changed], maxBytes, change);
  }

  lemma LeadingSpaceIsTrimmed(x: string)
    ensures NormalizeRelPath(" " + x) == NormalizeRelPath(x)
  {
    assert (" " + x)[1..] == x;
    assert TrimStart(" " + x) == TrimStart(x);
  }

  lemma SpacedNames()
    ensures NormalizeRelPath("./ a") == Ok(" a") && NormalizeRelPath(" a") == Ok("a") && NormalizeRelPath("a") == Ok("a")
  {
    var a := "a";
    var spaced := " " + a;
    NameIsKept(a);
    LeadingSpaceIsTrimmed(a);
    DotSlashHides(spaced);
    assert spaced == " a" && "./" + spaced == "./ a";
  }

  lemma SeenOnce(workspaceId: string, path: string, revision: string)
    requires Canonical(path)
    ensures LedgerAfter([FullRead(workspaceId, path, revision)]) == map[Key(workspaceId, path) := revision]
  {
    var events := [FullRead(workspaceId, path, revision)];
    assert events[..0] == [];
  }

  lemma LicensedBy(workspaceId: string, raw: string, written: string, read: string, revision: string, content: string, maxBytes: nat)
    requires NormalizeRelPath(raw) == Ok(written) && NormalizeRelPath(written) == Ok(read)
    requires revision != "" && Utf8Bytes(content) <= maxBytes
    ensures var ledger := map[Key(workspaceId, read) := revision];
            var files := map[written := IndexEntry(revision, false)];
            ValidateWrite(ledger, workspaceId, files, maxBytes, Change(Some(raw), Some(content), revision, ""))
            == Pass(Update(written, content, files[written]))
  {
  }

  /** Why both must be canonical. `./ a` writes the file " a" on the strength of a read
      of the file "a". */
  lemma OtherFileLicenses(workspaceId: string, revision: string, content: string, maxBytes: nat)
    requires revision != "" && Utf8Bytes(content) <= maxBytes
    ensures var ledger := LedgerAfter([FullRead(workspaceId, "a", revision)]);
            var files := map[" a" := IndexEntry(revision, false)];
            ValidateWrite(ledger, workspaceId, files, maxBytes, Change(Some("./ a"), Some(content), revision, ""))
            == Pass(Update(" a", content, files[" a"]))
  {
    SpacedNames();
    SeenOnce(workspaceId, "a", revision);
    LicensedBy(workspaceId, "./ a", " a", "a", revision, content, maxBytes);
  }

  /** And the other way round: a read of the file " a" licenses a write of "a". */
  lemma OtherFileLicensesCanonical(workspaceId: string, revision: string, content: string, maxBytes: nat)
    requires revision != "" && Utf8Bytes(content) <= maxBytes
    ensures Canonical("a")
    ensures var ledger := LedgerAfter([FullRead(workspaceId, " a", revision)]);
            var files := map["a" := IndexEntry(revision, false), " a" := IndexEntry(revision, false)];
            Updates(ValidateWrite(ledger, workspaceId, files, maxBytes, Change(Some("a"), Some(content), revision, "")))
  {
    SpacedNames();
    var files := map["a" := IndexEntry(revision, false), " a" := IndexEntry(revision, false)];
    var change := Change(Some("a"), Some(content), revision, "");
    assert "a" != " a" by { assert |"a"| != |" a"|; }
    ReadLicensesExactly(workspaceId, " a", files, maxBytes, change);
  }

  lemma OneNameKept(x: string)
    requires !IsSkipped(x) && !IsUp(x)
    ensures Kept([x]) == [x] && !Climbs([x]) && Join([x]) == x
  {
    assert [x][1..] == [];
  }

  lemma NameIsKept(x: string)
    requires x != "" && !IsSkipped(x) && !IsUp(x) && Trimmed(x) && x[0] != '~'
    requires '/' !in x && '\\' !in x && '\0' !in x && !StartsWithDrive(x)
    ensures Canonical(x)
  {
    PlainTextKept(x);
    SplitOne(x);
    OneNameKept(x);
    assert x[0] in x;
  }
}
