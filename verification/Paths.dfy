/** Relative POSIX paths: the normaliser every workspace path goes through. */
module Paths {
  import opened Base

  datatype PathError = Empty | NullByte | DriveLetter | Absolute | Home | Escapes | Root
  datatype PathResult = Ok(path: string) | Err(error: PathError)

  // The white space that String.prototype.trim removes.
  predicate IsSpace(c: char) {
    || '\t' <= c <= '\r' || c == ' ' || c == '\U{a0}' || c == '\U{1680}' || '\U{2000}' <= c <= '\U{200a}'
    || c == '\U{2028}' || c == '\U{2029}' || c == '\U{202f}' || c == '\U{205f}' || c == '\U{3000}' || c == '\U{feff}'
  }

  function TrimStart(s: string): (r: string)
    ensures |r| <= |s|
    ensures r != "" ==> !IsSpace(r[0])
    ensures s != "" && !IsSpace(s[0]) ==> r == s
  {
    if s != "" && IsSpace(s[0]) then TrimStart(s[1..]) else s
  }

  function TrimEnd(s: string): (r: string)
    ensures |r| <= |s|
    ensures r != "" ==> !IsSpace(r[|r| - 1]) && r[0] == s[0]
    ensures s != "" && !IsSpace(s[|s| - 1]) ==> r == s
  {
    if s != "" && IsSpace(s[|s| - 1]) then TrimEnd(s[..|s| - 1]) else s
  }

  function Trim(s: string): string {
    TrimEnd(TrimStart(s))
  }

  predicate Trimmed(s: string) {
    s != "" ==> !IsSpace(s[0]) && !IsSpace(s[|s| - 1])
  }

  function ForwardSlashes(s: string): (r: string)
    ensures |r| == |s|
    ensures forall k :: 0 <= k < |s| ==> r[k] == if s[k] == '\\' then '/' else s[k]
  {
    seq(|s|, k requires 0 <= k < |s| => if s[k] == '\\' then '/' else s[k])
  }

  predicate StartsWithDrive(s: string) {
    |s| >= 3 && ('a' <= s[0] <= 'z' || 'A' <= s[0] <= 'Z') && s[1] == ':' && s[2] == '/'
  }

  /** `s.split('/')`: never empty, and no part holds a slash. */
  function Split(s: string): (parts: seq<string>)
    ensures |parts| > 0
    ensures forall k :: 0 <= k < |parts| ==> '/' !in parts[k]
  {
    if s == "" then [""]
    else
      var parts := Split(s[1..]);
      if s[0] == '/' then [""] + parts else [[s[0]] + parts[0]] + parts[1..]
  }

  function Join(parts: seq<string>): string {
    if parts == [] then "" else if |parts| == 1 then parts[0] else parts[0] + "/" + Join(parts[1..])
  }

  predicate IsSkipped(segment: string) {
    segment == "" || segment == "."
  }

  predicate IsUp(segment: string) {
    segment == ".."
  }

  predicate Climbs(parts: seq<string>) {
    exists k :: 0 <= k < |parts| && IsUp(parts[k])
  }

  function Kept(parts: seq<string>): (r: seq<string>)
    ensures forall k :: 0 <= k < |r| ==> r[k] in parts && !IsSkipped(r[k])
  {
    if parts == [] then []
    else (if IsSkipped(parts[0]) then [] else [parts[0]]) + Kept(parts[1..])
  }

  function NormalizeRelPath(input: string): PathResult {
    var p := ForwardSlashes(Trim(input));
    if p == "" then Err(Empty)
    else if '\0' in p then Err(NullByte)
    else if StartsWithDrive(p) then Err(DriveLetter)
    else if p[0] == '/' then Err(Absolute)
    else if p[0] == '~' then Err(Home)
    else if Climbs(Split(p)) then Err(Escapes)
    else if Kept(Split(p)) == [] then Err(Root)
    else Ok(Join(Kept(Split(p))))
  }

  lemma ForwardSlashesKeepNull(s: string)
    ensures '\0' in ForwardSlashes(s) <==> '\0' in s
  {
    if '\0' in s {
      var k :| 0 <= k < |s| && s[k] == '\0';
      assert ForwardSlashes(s)[k] == '\0';
    }
  }

  lemma KeptFrom(parts: seq<string>, i: nat)
    requires i < |parts|
    ensures Kept(parts[i..]) == (if IsSkipped(parts[i]) then [] else [parts[i]]) + Kept(parts[i + 1..])
  {
    assert parts[i..][1..] == parts[i + 1..];
  }

  method Normalize(input: string) returns (result: PathResult)
    ensures result == NormalizeRelPath(input)
  {
    var p := Trim(input);
    if p == "" { return Err(Empty); }
    ForwardSlashesKeepNull(p);
    if '\0' in p { return Err(NullByte); }
    p := ForwardSlashes(p);
    if StartsWithDrive(p) { return Err(DriveLetter); }
    if p[0] == '/' { return Err(Absolute); }
    if p[0] == '~' { return Err(Home); }
    var segments := KeepSegments(Split(p));
    if segments.None? { return Err(Escapes); }
    if segments.value == [] { return Err(Root); }
    return Ok(Join(segments.value));
  }

  lemma ClimbsStep(parts: seq<string>, i: nat)
    requires i < |parts|
    ensures Climbs(parts[..i + 1]) <==> Climbs(parts[..i]) || IsUp(parts[i])
  {
    if Climbs(parts[..i]) {
      var k :| 0 <= k < i && IsUp(parts[..i][k]);
      assert IsUp(parts[..i + 1][k]);
    }
    if IsUp(parts[i]) { assert IsUp(parts[..i + 1][i]); }
    if Climbs(parts[..i + 1]) {
      var k :| 0 <= k < i + 1 && IsUp(parts[..i + 1][k]);
      if k < i { assert IsUp(parts[..i][k]); }
    }
  }

  lemma ClimbsOn(parts: seq<string>, i: nat)
    requires i <= |parts| && Climbs(parts[..i])
    ensures Climbs(parts)
  {
    var k :| 0 <= k < i && IsUp(parts[..i][k]);
    assert IsUp(parts[k]);
  }

  lemma KeptStep(segments: seq<string>, parts: seq<string>, i: nat)
    requires i < |parts|
    ensures segments + Kept(parts[i..]) == segments + (if IsSkipped(parts[i]) then [] else [parts[i]]) + Kept(parts[i + 1..])
  {
    KeptFrom(parts, i);
  }

  /** The loop over the segments: None once it meets `..`. */
  method KeepSegments(parts: seq<string>) returns (r: Option<seq<string>>)
    ensures r == if Climbs(parts) then None else Some(Kept(parts))
  {
    var segments := [];
    assert parts[0..] == parts;
    for i := 0 to |parts|
      invariant !Climbs(parts[..i])
      invariant segments + Kept(parts[i..]) == Kept(parts)
    {
      var segment := parts[i];
      KeptStep(segments, parts, i);
      ClimbsStep(parts, i);
      if IsSkipped(segment) {
        assert segments + [] == segments;
        continue;
      }
      if IsUp(segment) {
        ClimbsOn(parts, i + 1);
        return None;
      }
      segments := segments + [segment];
    }
    assert parts[..|parts|] == parts && parts[|parts|..] == [];
    assert segments + [] == segments;
    return Some(segments);
  }

  // ------------------------------------------------------------ properties

  lemma {:induction false} SplitOfJoin(parts: seq<string>)
    requires parts != [] && forall k :: 0 <= k < |parts| ==> '/' !in parts[k]
    ensures Split(Join(parts)) == parts
    decreases |parts|, |parts[0]|
  {
    var s := Join(parts);
    if |parts| == 1 {
      SplitOne(parts[0]);
    } else {
      SplitOfJoin(parts[1..]);
      SplitFirst(parts[0], Join(parts[1..]));
      assert s == parts[0] + "/" + Join(parts[1..]);
    }
  }

  lemma {:induction false} SplitOne(part: string)
    requires '/' !in part
    ensures Split(part) == [part]
  {
    if part != "" {
      SplitOne(part[1..]);
      assert [part[0]] + part[1..] == part;
    }
  }

  lemma {:induction false} SplitFirst(part: string, rest: string)
    requires '/' !in part
    ensures Split(part + "/" + rest) == [part] + Split(rest)
  {
    var s := part + "/" + rest;
    if part == "" {
      assert s[1..] == rest;
    } else {
      assert s[1..] == part[1..] + "/" + rest;
      SplitFirst(part[1..], rest);
      assert [part[0]] + part[1..] == part;
      assert ([part[1..]] + Split(rest))[1..] == Split(rest);
    }
  }

  lemma {:induction false} JoinOfSplit(s: string)
    ensures Join(Split(s)) == s
  {
    if s != "" {
      JoinOfSplit(s[1..]);
      var parts := Split(s[1..]);
      if s[0] == '/' {
        assert ([""] + parts)[1..] == parts;
      } else {
        assert ([[s[0]] + parts[0]] + parts[1..])[1..] == parts[1..];
      }
      assert [s[0]] + s[1..] == s;
    }
  }

  lemma {:induction false} JoinChars(parts: seq<string>, c: char)
    requires c in Join(parts) && c != '/'
    ensures exists k :: 0 <= k < |parts| && c in parts[k]
  {
    if |parts| == 1 {
      assert c in parts[0];
    } else if c !in parts[0] {
      JoinChars(parts[1..], c);
      var k :| 0 <= k < |parts[1..]| && c in parts[1..][k];
      assert c in parts[k + 1];
    }
  }

  lemma {:induction false} SplitChars(s: string, part: string, c: char)
    requires part in Split(s) && c in part
    ensures c in s
  {
    if s != "" {
      var parts := Split(s[1..]);
      if s[0] == '/' {
        if part in parts { SplitChars(s[1..], part, c); }
      } else if part in parts[1..] {
        SplitChars(s[1..], part, c);
      } else if c in parts[0] {
        SplitChars(s[1..], parts[0], c);
      }
    }
  }

  lemma {:induction false} KeptAll(parts: seq<string>)
    ensures Kept(parts) == parts <==> forall k :: 0 <= k < |parts| ==> !IsSkipped(parts[k])
    ensures |Kept(parts)| <= |parts|
  {
    if parts != [] {
      KeptAll(parts[1..]);
      assert forall k :: 1 <= k < |parts| ==> parts[k] == parts[1..][k - 1];
      if !IsSkipped(parts[0]) {
        assert Kept(parts)[1..] == Kept(parts[1..]);
        assert Kept(parts[1..]) == parts[1..] ==> Kept(parts) == [parts[0]] + parts[1..] == parts;
      }
    }
  }

  lemma TrimLeavesTrimmed(s: string)
    ensures Trimmed(s) <==> Trim(s) == s
    ensures Trimmed(Trim(s))
  {
  }

  /** Every segment names something below the root. */
  predicate Descends(p: string) {
    forall k :: 0 <= k < |Split(p)| ==> !IsSkipped(Split(p)[k]) && !IsUp(Split(p)[k])
  }

  /** No accepted path leaves the workspace, whatever the caller spelled. */
  lemma AcceptedPathStaysInside(input: string)
    requires NormalizeRelPath(input).Ok?
    ensures var r := NormalizeRelPath(input).path;
            r != "" && Descends(r) && '\\' !in r && '\0' !in r && r[0] != '/'
  {
    var p := ForwardSlashes(Trim(input));
    var parts := Kept(Split(p));
    var r := Join(parts);
    SplitOfJoin(parts);
    if '\\' in r {
      JoinChars(parts, '\\');
      var k :| 0 <= k < |parts| && '\\' in parts[k];
      SplitChars(p, parts[k], '\\');
    }
    if '\0' in r {
      JoinChars(parts, '\0');
      var k :| 0 <= k < |parts| && '\0' in parts[k];
      SplitChars(p, parts[k], '\0');
    }
    assert parts[0] != "" && Split(r)[0] == parts[0];
  }

  /** A fixpoint of the normaliser. */
  predicate Canonical(p: string) {
    NormalizeRelPath(p) == Ok(p)
  }

  lemma NoBackslashes(r: string)
    requires '\\' !in r
    ensures ForwardSlashes(r) == r
  {
    forall k | 0 <= k < |r| ensures ForwardSlashes(r)[k] == r[k] { assert r[k] in r; }
  }

  lemma UntrimmedIsNotCanonical(r: string)
    requires r != "" && !Trimmed(r)
    ensures !Canonical(r)
  {
    if Canonical(r) {
      var parts := Split(ForwardSlashes(Trim(r)));
      KeptShorter(parts);
      JoinOfSplit(ForwardSlashes(Trim(r)));
      TrimShorter(r);
    }
  }

  lemma TrimmedIsCanonical(r: string)
    requires r != "" && Trimmed(r) && Descends(r) && '\\' !in r && '\0' !in r && r[0] != '/'
    ensures Canonical(r) <==> r[0] != '~' && !StartsWithDrive(r)
  {
    TrimLeavesTrimmed(r);
    NoBackslashes(r);
    KeptAll(Split(r));
    JoinOfSplit(r);
  }

  /** Normalising twice is normalising once, except on the accepted paths that
      re-expose outer white space, a home marker or a drive: `./ a`, `./~x`, `./C:/x`. */
  lemma NormalizingTwice(input: string)
    requires NormalizeRelPath(input).Ok?
    ensures var r := NormalizeRelPath(input).path;
            Canonical(r) <==> Trimmed(r) && r[0] != '~' && !StartsWithDrive(r)
  {
    AcceptedPathStaysInside(input);
    var r := NormalizeRelPath(input).path;
    if Trimmed(r) { TrimmedIsCanonical(r); } else { UntrimmedIsNotCanonical(r); }
  }

  lemma {:induction false} KeptShorter(parts: seq<string>)
    ensures |Join(Kept(parts))| <= |Join(parts)|
  {
    if |parts| > 1 {
      KeptShorter(parts[1..]);
      var more := Kept(parts[1..]);
      if !IsSkipped(parts[0]) {
        assert Kept(parts)[1..] == more;
        assert more == [] ==> Join(Kept(parts)) == parts[0];
      } else {
        assert Kept(parts) == more;
      }
    } else if |parts| == 1 {
      assert Kept(parts[1..]) == [];
    }
  }

  lemma TrimShorter(s: string)
    requires !Trimmed(s)
    ensures |Trim(s)| < |s|
  {
    if IsSpace(s[0]) {
      assert |TrimStart(s)| <= |s| - 1;
    } else {
      assert |TrimEnd(s)| <= |s| - 1;
    }
  }

  lemma KeptDotThen(x: string)
    requires !IsSkipped(x)
    ensures Kept([".", x]) == [x]
  {
    assert [".", x][1..] == [x] && [x][1..] == [];
    assert Kept([x]) == [x] + Kept([]);
  }

  lemma PlainTextKept(p: string)
    requires p != "" && Trimmed(p) && '\\' !in p && '\0' !in p
    ensures ForwardSlashes(Trim(p)) == p && '\0' !in ForwardSlashes(Trim(p))
  {
    TrimLeavesTrimmed(p);
    assert ForwardSlashes(p) == p;
  }

  lemma DotSlashPlain(x: string)
    requires x != "" && !IsSpace(x[|x| - 1]) && '\\' !in x && '\0' !in x
    ensures Trimmed("./" + x) && '\\' !in "./" + x && '\0' !in "./" + x && !StartsWithDrive("./" + x)
  {
    var p := "./" + x;
    assert p[0] == '.' && p[1] == '/' && p[|p| - 1] == x[|x| - 1];
  }

  lemma DotSlashSplits(x: string)
    requires '/' !in x
    ensures Split("./" + x) == [".", x]
  {
    assert "./" + x == "." + "/" + x;
    SplitFirst(".", x);
    SplitOne(x);
  }

  /** Any single name can be hidden behind `./`. */
  lemma DotSlashHides(x: string)
    requires x != "" && !IsSkipped(x) && !IsUp(x) && !IsSpace(x[|x| - 1])
    requires '/' !in x && '\\' !in x && '\0' !in x
    ensures NormalizeRelPath("./" + x) == Ok(x)
  {
    var p := "./" + x;
    DotSlashPlain(x);
    PlainTextKept(p);
    DotSlashSplits(x);
    KeptDotThen(x);
    assert !Climbs([".", x]);
  }

  lemma HomeMarkerRefused(x: string)
    requires x != "" && Trimmed(x) && x[0] == '~' && '\\' !in x && '\0' !in x
    ensures NormalizeRelPath(x) == Err(Home)
  {
    PlainTextKept(x);
  }

  lemma NormalizingTwiceCanFail()
    ensures NormalizeRelPath("./~x") == Ok("~x") && NormalizeRelPath("~x") == Err(Home)
  {
    var x := "~x";
    DotSlashHides(x);
    assert "./" + x == "./~x";
    HomeMarkerRefused(x);
  }

  // ------------------------------------------------- accepted exactly when

  /** White space and line terminators as sections 12.2 and 12.3 of ECMA-262 list them. */
  const BLANKS: set<int> :=
    {0x9, 0xB, 0xC, 0xFEFF, 0x20, 0xA0, 0x1680, 0x2000, 0x2001, 0x2002, 0x2003, 0x2004, 0x2005, 0x2006, 0x2007, 0x2008,
     0x2009, 0x200A, 0x202F, 0x205F, 0x3000, 0xA, 0xD, 0x2028, 0x2029}

  predicate Blank(s: string) {
    forall k :: 0 <= k < |s| ==> s[k] as int in BLANKS
  }

  lemma SpacesExactly(c: char)
    ensures IsSpace(c) <==> c as int in BLANKS
  {
  }

  lemma {:induction false} TrimmedStart(s: string) returns (before: string)
    ensures s == before + TrimStart(s) && Blank(before)
  {
    if s != "" && IsSpace(s[0]) {
      before := TrimmedStart(s[1..]);
      SpacesExactly(s[0]);
      assert s == [s[0]] + s[1..];
      before := [s[0]] + before;
    } else {
      before := "";
    }
  }

  lemma {:induction false} TrimmedEnd(s: string) returns (after: string)
    ensures s == TrimEnd(s) + after && Blank(after)
  {
    if s != "" && IsSpace(s[|s| - 1]) {
      after := TrimmedEnd(s[..|s| - 1]);
      SpacesExactly(s[|s| - 1]);
      assert s == s[..|s| - 1] + [s[|s| - 1]];
      after := after + [s[|s| - 1]];
    } else {
      after := "";
    }
  }

  /** Trimming takes off white space at both ends, and all of it. */
  lemma TrimsExactly(s: string) returns (before: string, after: string)
    ensures s == before + Trim(s) + after && Blank(before) && Blank(after)
    ensures Trim(s) != "" ==> Trim(s)[0] as int !in BLANKS && Trim(s)[|Trim(s)| - 1] as int !in BLANKS
  {
    before := TrimmedStart(s);
    after := TrimmedEnd(TrimStart(s));
    if Trim(s) != "" {
      SpacesExactly(Trim(s)[0]);
      SpacesExactly(Trim(s)[|Trim(s)| - 1]);
    }
  }

  predicate IsSlash(c: char) {
    c == '/' || c == '\\'
  }

  /** A drive letter, a colon and a slash of either kind. */
  predicate LooksLikeDrive(p: string) {
    |p| >= 3 && (65 <= p[0] as int <= 90 || 97 <= p[0] as int <= 122) && p[1] == ':' && IsSlash(p[2])
  }

  /** The segments between slashes of either kind. */
  function Segments(p: string): seq<string> {
    Split(ForwardSlashes(p))
  }

  /** What is wrong with a path, the first of these that is: it is blank, holds a null
      byte, looks like a drive, starts with a slash or a tilde, climbs, or names nothing. */
  ghost predicate Wrong(p: string, e: PathError) {
    match e
    case Empty => p == ""
    case NullByte => p != "" && '\0' in p
    case DriveLetter => '\0' !in p && LooksLikeDrive(p)
    case Absolute => '\0' !in p && p != "" && IsSlash(p[0])
    case Home => '\0' !in p && p != "" && p[0] == '~'
    case Escapes => Plain(p) && ".." in Segments(p)
    case Root => Plain(p) && forall part :: part in Segments(p) ==> part in {"", "."}
  }

  predicate Plain(p: string) {
    p != "" && '\0' !in p && !LooksLikeDrive(p) && !IsSlash(p[0]) && p[0] != '~'
  }

  lemma {:induction false} KeptNothing(parts: seq<string>)
    ensures Kept(parts) == [] <==> forall part :: part in parts ==> IsSkipped(part)
  {
    if parts != [] {
      KeptNothing(parts[1..]);
      assert parts == [parts[0]] + parts[1..];
    }
  }

  lemma ShapeAsSpelled(p: string)
    requires p != ""
    ensures var f := ForwardSlashes(p);
            && (StartsWithDrive(f) <==> LooksLikeDrive(p)) && (f[0] == '/' <==> IsSlash(p[0])) && (f[0] == '~' <==> p[0] == '~')
  {
  }

  lemma SegmentsAsSpelled(p: string)
    ensures Climbs(Segments(p)) <==> ".." in Segments(p)
    ensures Kept(Segments(p)) == [] <==> forall part :: part in Segments(p) ==> part in {"", "."}
    ensures !(Climbs(Segments(p)) && Kept(Segments(p)) == [])
  {
    KeptNothing(Segments(p));
    assert !IsSkipped("..");
  }

  /** Refused exactly if something is wrong with what was trimmed, and for that reason. */
  lemma RefusedExactly(input: string, e: PathError)
    ensures NormalizeRelPath(input) == Err(e) <==> Wrong(Trim(input), e)
  {
    var p := Trim(input);
    ForwardSlashesKeepNull(p);
    SegmentsAsSpelled(p);
    if p != "" { ShapeAsSpelled(p); }
  }

  /** Otherwise its segments are kept in order, without the empty ones and the dots. */
  lemma AcceptedExactly(input: string)
    ensures NormalizeRelPath(input).Ok? ==> Split(NormalizeRelPath(input).path) == Kept(Segments(Trim(input)))
  {
    if NormalizeRelPath(input).Ok? { SplitOfJoin(Kept(Segments(Trim(input)))); }
  }
}
