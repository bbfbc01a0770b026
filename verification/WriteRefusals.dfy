/** Which writes are let through or refused, and why: creations, the reasons by rank,
    the size limit in bytes, and the whole list of problems of a batch. */
module WriteRefusals {
  import opened Base
  import opened Paths
  import opened WriteGuards

  // ------------------------------------------------------------- the size

  /** UTF-8 as section 3 of RFC 3629 writes a character, high bits first. */
  function Utf8(c: char): seq<int> {
    var x := c as int;
    if x < 0x80 then [x]
    else if x < 0x800 then [0xC0 + x / 64, 0x80 + x % 64]
    else if x < 0x10000 then [0xE0 + x / 4096, 0x80 + x / 64 % 64, 0x80 + x % 64]
    else [0xF0 + x / 262144, 0x80 + x / 4096 % 64, 0x80 + x / 64 % 64, 0x80 + x % 64]
  }

  function Encoded(s: string): seq<int> {
    if s == [] then [] else Utf8(s[0]) + Encoded(s[1..])
  }

  predicate Continues(b: int) {
    0x80 <= b < 0xC0
  }

  /** How many bytes the character has that starts with this one. */
  function LengthByLead(b: int): nat {
    if b < 0x80 then 1 else if b < 0xE0 then 2 else if b < 0xF0 then 3 else 4
  }

  function ValueOf(bytes: seq<int>): int {
    if |bytes| == 1 then bytes[0]
    else if |bytes| == 2 then (bytes[0] - 0xC0) * 64 + (bytes[1] - 0x80)
    else if |bytes| == 3 then (bytes[0] - 0xE0) * 4096 + (bytes[1] - 0x80) * 64 + (bytes[2] - 0x80)
    else if |bytes| == 4 then (bytes[0] - 0xF0) * 262144 + (bytes[1] - 0x80) * 4096 + (bytes[2] - 0x80) * 64 + (bytes[3] - 0x80)
    else -1
  }

  /** What does not fit into fewer bytes starts here. */
  function LeastOfLength(n: nat): int {
    if n <= 1 then 0 else if n == 2 then 0x80 else if n == 3 then 0x800 else 0x10000
  }

  /** The encoding can be read back: the first byte tells the length, the others are
      continuations, together they hold the character, and fewer could not. */
  lemma Utf8ReadsBack(c: char)
    ensures var bytes := Utf8(c);
            && |bytes| == LengthByLead(bytes[0]) && !Continues(bytes[0]) && ValueOf(bytes) == c as int
            && LeastOfLength(|bytes|) <= c as int
            && forall i :: 0 < i < |bytes| ==> Continues(bytes[i])
  {
    var x := c as int;
    assert x < 0x110000;
    assert x == x / 64 * 64 + x % 64;
    assert x / 64 == x / 4096 * 64 + x / 64 % 64;
    assert x / 4096 == x / 262144 * 64 + x / 4096 % 64;
  }

  /** The size a write is held against is the length of its content in UTF-8. */
  lemma {:induction false} SizeIsEncodedLength(s: string)
    ensures Utf8Bytes(s) == |Encoded(s)|
  {
    if s != [] { SizeIsEncodedLength(s[1..]); }
  }

  // ---------------------------------------------------- one write, and why

  /** A text for a path the normaliser takes, of a kind and size that can be written. */
  predicate WellFormed(change: Change, maxBytes: nat) {
    && change.Change? && change.path.Some? && NormalizeRelPath(change.path.value).Ok? && change.content.Some?
    && |Encoded(change.content.value)| <= maxBytes && change.action in {"", "create", "update"}
  }

  /** A creation is let through exactly if the path is free and nothing in the entry
      claims otherwise; it needs no read, and writes what was sent. */
  lemma CreateAcceptedExactly(ledger: Ledger, workspaceId: string, files: Files, maxBytes: nat, change: Change, v: Validated)
    requires v.Create?
    ensures ValidateWrite(ledger, workspaceId, files, maxBytes, change) == Pass(v)
       <==> WellFormed(change, maxBytes) && change.action != "update" && change.baseRevision == "" && Target(change) !in files
            && v.path == Target(change) && change.content == Some(v.content)
  {
    if change.Change? && change.content.Some? { SizeIsEncodedLength(change.content.value); }
  }

  /** And an accepted update writes what was sent over the entry that is there. */
  lemma UpdateWritesWhatWasSent(ledger: Ledger, workspaceId: string, files: Files, maxBytes: nat, change: Change)
    requires Updates(ValidateWrite(ledger, workspaceId, files, maxBytes, change))
    ensures var v := ValidateWrite(ledger, workspaceId, files, maxBytes, change).value;
            v.path == Target(change) && change.content == Some(v.content) && v.path in files && v.existing == files[v.path]
  {
  }

  /** The write itself is in order: what is left is whether the file may be replaced. */
  predicate MayReplace(files: Files, maxBytes: nat, change: Change) {
    && WellFormed(change, maxBytes) && Target(change) in files && change.action != "create" && !files[Target(change)].binary
    && change.baseRevision != ""
  }

  /** The refusals a client can act on, each exactly when it applies. Every other one
      calls the request itself wrong. */
  lemma RefusedBecause(ledger: Ledger, workspaceId: string, files: Files, maxBytes: nat, change: Change)
    ensures var r, path := ValidateWrite(ledger, workspaceId, files, maxBytes, change), Target(change);
            && (r == Fail(TooLarge) <==>
                  change.Change? && change.path.Some? && NormalizeRelPath(change.path.value).Ok? && change.content.Some?
                  && |Encoded(change.content.value)| > maxBytes)
            && (r == Fail(FileNotFound) <==> WellFormed(change, maxBytes) && change.action == "update" && path !in files)
            && (r == Fail(Conflict) <==> WellFormed(change, maxBytes) && change.action == "create" && path in files)
            && (r == Fail(StaleRevision) <==> MayReplace(files, maxBytes, change) && change.baseRevision != files[path].revision)
            && (r == Fail(UnreadFile) <==>
                  MayReplace(files, maxBytes, change) && change.baseRevision == files[path].revision
                  && ReadKey(workspaceId, path).Some? && LastRead(ledger, ReadKey(workspaceId, path).value) != Some(files[path].revision))
  {
    if change.Change? && change.content.Some? { SizeIsEncodedLength(change.content.value); }
  }

  /** The same for a delete, which nothing but its path, its base revision and what was
      last read can stop. */
  lemma DeleteRefusedBecause(ledger: Ledger, workspaceId: string, files: Files, rawPath: string, baseRevision: string)
    ensures var r := ValidateDelete(ledger, workspaceId, files, rawPath, baseRevision);
            && (r.Fail? && r.code == FileNotFound <==> NormalizeRelPath(rawPath).Ok? && NormalizeRelPath(rawPath).path !in files)
            && (NormalizeRelPath(rawPath).Ok? && NormalizeRelPath(rawPath).path in files ==>
                  var path := NormalizeRelPath(rawPath).path;
                  && (r == Fail(StaleRevision) <==> baseRevision != "" && baseRevision != files[path].revision)
                  && (r == Fail(UnreadFile) <==>
                        baseRevision != "" && baseRevision == files[path].revision && ReadKey(workspaceId, path).Some?
                        && LastRead(ledger, ReadKey(workspaceId, path).value) != Some(baseRevision))
                  && (r.Pass? ==> r.value == path))
            && (r.Pass? || r.code in {BadRequest, FileNotFound, StaleRevision, UnreadFile})
  {
  }

  // --------------------------------------------------- what a batch reports

  /** What is wrong with the k-th entry: its own reason, or that an earlier entry that
      passes writes the same path. */
  function WrongWith(check: Checker, changes: seq<Change>, k: nat): Option<Code>
    requires k < |changes|
  {
    if check(changes[k]).Fail? then Some(check(changes[k]).code)
    else if exists i :: 0 <= i < k && SamePath(check(changes[i]), check(changes[k])) then Some(BadRequest)
    else None
  }

  /** The path as it was sent, if any was. */
  function SentPath(change: Change): Option<string> {
    match change
    case NotAnObject => None
    case Change(path, _, _, _) => path
  }

  function Reports(check: Checker, changes: seq<Change>, n: nat): seq<Problem>
    requires n <= |changes|
  {
    if n == 0 then []
    else
      var wrong := WrongWith(check, changes, n - 1);
      Reports(check, changes, n - 1) + if wrong.Some? then [Problem(SentPath(changes[n - 1]), wrong.value)] else []
  }

  /** The paths of the entries before the n-th that pass. */
  ghost predicate SeenBefore(p: Progress, check: Checker, changes: seq<Change>, n: nat)
    requires n <= |changes|
  {
    forall path :: path in p.seen <==> exists i :: 0 <= i < n && check(changes[i]).Pass? && check(changes[i]).value.path == path
  }

  lemma SeenNext(check: Checker, changes: seq<Change>, n: nat)
    requires n < |changes| && SeenBefore(Scan(check, changes[..n]), check, changes, n)
    ensures SeenBefore(Scan(check, changes[..n + 1]), check, changes, n + 1)
  {
    var p, q := Scan(check, changes[..n]), Scan(check, changes[..n + 1]);
    ScanStep(check, changes, n);
    forall path ensures path in q.seen <==> exists i :: 0 <= i < n + 1 && check(changes[i]).Pass? && check(changes[i]).value.path == path {
      if path in p.seen { assert path in q.seen; }
      else if check(changes[n]).Pass? && check(changes[n]).value.path == path { assert path in q.seen; }
      else { assert path !in q.seen; }
    }
  }

  lemma {:induction false} ScanReports(check: Checker, changes: seq<Change>, n: nat)
    requires n <= |changes|
    ensures Scan(check, changes[..n]).problems == Reports(check, changes, n)
    ensures SeenBefore(Scan(check, changes[..n]), check, changes, n)
  {
    if n > 0 {
      ScanReports(check, changes, n - 1);
      ScanStep(check, changes, n - 1);
      SeenNext(check, changes, n - 1);
      assert changes[..n - 1 + 1] == changes[..n];
      var c := check(changes[n - 1]);
      if c.Pass? {
        assert c.value.path in Scan(check, changes[..n - 1]).seen
          <==> exists i :: 0 <= i < n - 1 && SamePath(check(changes[i]), c);
      }
    }
  }

  /** A rejection lists exactly the entries something is wrong with, in order, each with
      the path it was sent with and its reason. */
  lemma RejectionListsExactly(check: Checker, changes: seq<Change>)
    requires 1 <= |changes| <= 100
    ensures var problems := Reports(check, changes, |changes|);
            Batch(check, changes).Rejected? <==> problems != []
    ensures Batch(check, changes).Rejected? ==> Batch(check, changes).problems == Reports(check, changes, |changes|)
  {
    ScanReports(check, changes, |changes|);
    assert changes[..|changes|] == changes;
  }
}
