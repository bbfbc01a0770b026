/** The compiled pattern means what the glob means. */
module GlobMeaning {
  import opened Base
  import opened Globs

  const NOT_SLASH := Class(true, [Range('/', '/')])
  const DIRECTORY := Group(Single(Next(Many(NOT_SLASH), Next(Once(Char('/')), Nothing))))

  // ------------------------------------------------ the pattern of a glob

  function ToTerm(piece: Piece): Term {
    match piece
    case Literal(c) => Once(Char(c))
    case Star => Many(NOT_SLASH)
    case DeepStar => Many(Dot)
    case DeepDirs => Many(DIRECTORY)
    case AnyOne => Once(NOT_SLASH)
    case CharSet(negated, ranges) => Once(Class(negated, ranges))
    case Braces(alts) => Once(Group(ToDisjunction(alts)))
  }

  function ToPattern(g: Glob): Pattern {
    match g
    case End => Nothing
    case Then(piece, rest) => Next(ToTerm(piece), ToPattern(rest))
  }

  function ToDisjunction(alts: Alternatives): Disjunction {
    match alts
    case Only(g) => Single(ToPattern(g))
    case Or(g, others) => Either(ToPattern(g), ToDisjunction(others))
  }

  // --------------------------------------------- reading the emitted text

  /** The text still to be read when the glob suffix `s` is still to be scanned. */
  function Tail(s: string, depth: nat): string {
    Emit(s, depth) + "$"
  }

  lemma TailUnfolds(s: string, depth: nat)
    requires s != ""
    ensures var t := Scan(s, depth); Tail(s, depth) == t.text + Tail(s[t.used..], t.depth)
  {
  }

  /** No emitted text starts with a quantifier, so a piece never repeats by accident. */
  lemma TailStartsNoQuantifier(s: string, depth: nat)
    ensures Tail(s, depth) != "" && Tail(s, depth)[0] != '*'
  {
    if s != "" {
      TailUnfolds(s, depth);
    }
  }

  lemma ClassHeadReads(c: char, more: string, body: string, x: string)
    requires c != ']' && ReClass(more) == Read(body, x)
    ensures ReClass((if c == '\\' then "\\\\" else [c]) + more) == Read([c] + body, x)
  {
    if c == '\\' {
      assert ("\\\\" + more)[2..] == more;
    } else {
      assert ([c] + more)[1..] == more;
    }
  }

  lemma Regroup(a: string, b: string, c: string, d: string)
    ensures a + b + c + d == a + (b + c + d)
  {
  }

  lemma HeadAndTail(s: string)
    requires s != ""
    ensures [s[0]] + s[1..] == s
  {
  }

  lemma {:induction false} ClassReadsBack(body: string, x: string)
    requires ']' !in body
    ensures ReClass(DoubleBackslashes(body) + "]" + x) == Read(body, x)
  {
    if body == "" {
      assert "" + "]" + x == "]" + x;
      assert ("]" + x)[1..] == x;
    } else {
      var head := if body[0] == '\\' then "\\\\" else [body[0]];
      ClassReadsBack(body[1..], x);
      ClassHeadReads(body[0], DoubleBackslashes(body[1..]) + "]" + x, body[1..], x);
      Regroup(head, DoubleBackslashes(body[1..]), "]", x);
      HeadAndTail(body);
    }
  }

  lemma NotSlashReads(x: string)
    ensures ReAtom("[^/]" + x) == Read(NOT_SLASH, x)
  {
    var t := "[^/]" + x;
    assert t[2..] == "/]" + x;
    assert t[2..][1..] == "]" + x;
    assert ("]" + x)[1..] == x;
    assert ReClass("]" + x) == Read("", x);
    assert [t[2..][0]] + "" == "/";
    assert ReClass(t[2..]) == Read("/", x);
    assert Ranges("/") == Some([Range('/', '/')]) by {
      assert "/"[1..] == "" && Ranges("") == Some([]);
      assert [Range('/', '/')] + [] == [Range('/', '/')];
    }
  }

  lemma SlashReads(x: string)
    ensures ReSequence("\\/)" + x) == Read(Next(Once(Char('/')), Nothing), ")" + x)
  {
    var t := "\\/)" + x;
    assert t[2..] == ")" + x;
    assert ReAtom(t) == Read(Char('/'), ")" + x);
    assert ReSequence(")" + x) == Read(Nothing, ")" + x);
  }

  const STEPS := Next(Many(NOT_SLASH), Next(Once(Char('/')), Nothing))

  lemma ManyThen(t: string, a: Atom, rest: string, p: Pattern, after: string)
    requires t != "" && t[0] != ')' && t[0] != '|' && t[0] != '$'
    requires ReAtom(t) == Read(a, "*" + rest) && ReSequence(rest) == Read(p, after)
    ensures ReSequence(t) == Read(Next(Many(a), p), after)
  {
    assert ("*" + rest)[1..] == rest;
  }

  lemma StepsRead(x: string)
    ensures ReSequence("[^/]" + ("*" + ("\\/)" + x))) == Read(STEPS, ")" + x)
  {
    var rest := "\\/)" + x;
    NotSlashReads("*" + rest);
    SlashReads(x);
    ManyThen("[^/]" + ("*" + rest), NOT_SLASH, rest, Next(Once(Char('/')), Nothing), ")" + x);
  }

  lemma GroupReads(x: string)
    ensures ReAtom("(?:" + x) == match ReDisjunction(x)
                                 case Bad => Bad
                                 case Read(d, rest) => Read(Group(d), rest)
  {
    assert ("(?:" + x)[3..] == x;
  }

  lemma DirectoryReads(x: string)
    ensures ReAtom("(?:[^/]*\\/)" + x) == Read(DIRECTORY, x)
  {
    var inner := "[^/]" + ("*" + ("\\/)" + x));
    StepsRead(x);
    assert (")" + x)[1..] == x;
    assert ReDisjunction(inner) == Read(Single(STEPS), x);
    GroupReads(inner);
    assert "(?:[^/]*\\/)" + x == "(?:" + inner;
  }

  /** An atom read from emitted text is the term of the parsed piece, and what
      follows it is the text of the glob that follows the piece. */
  ghost predicate ReadsAs(p: Parsed<Piece>, atom: Parsed<Atom>, depth: nat) {
    match p
    case Bad => atom.Bad?
    case Read(piece, rest) =>
      match ToTerm(piece)
      case Once(a) => atom == Read(a, Tail(rest, depth))
      case Many(a) => atom == Read(a, "*" + Tail(rest, depth))
  }

  /** What the pattern reader makes of the text emitted for one glob piece. */
  ghost predicate PieceReads(s: string, depth: nat) {
    s != "" && ReadsAs(ParsePiece(s, depth > 0), ReAtom(Tail(s, depth)), depth)
  }

  lemma QuestionReads(s: string, depth: nat)
    requires s != "" && s[0] == '?'
    ensures PieceReads(s, depth)
  {
    TailUnfolds(s, depth);
    NotSlashReads(Tail(s[1..], depth));
  }

  lemma SingleStarText(s: string, depth: nat)
    requires s != "" && s[0] == '*' && !(|s| >= 2 && s[1] == '*')
    ensures Tail(s, depth) == "[^/]" + ("*" + Tail(s[1..], depth))
  {
    TailUnfolds(s, depth);
  }

  lemma SingleStarReads(s: string, depth: nat)
    requires s != "" && s[0] == '*' && !(|s| >= 2 && s[1] == '*')
    ensures PieceReads(s, depth)
  {
    SingleStarText(s, depth);
    NotSlashReads("*" + Tail(s[1..], depth));
  }

  lemma DeepStarText(s: string, depth: nat)
    requires |s| >= 2 && s[0] == '*' && s[1] == '*' && !(|s| >= 3 && s[2] == '/')
    ensures Tail(s, depth) == "." + ("*" + Tail(s[2..], depth))
  {
    TailUnfolds(s, depth);
  }

  lemma DeepStarReads(s: string, depth: nat)
    requires |s| >= 2 && s[0] == '*' && s[1] == '*' && !(|s| >= 3 && s[2] == '/')
    ensures PieceReads(s, depth)
  {
    var x := "*" + Tail(s[2..], depth);
    DeepStarText(s, depth);
    assert ("." + x)[1..] == x;
  }

  lemma DeepDirsText(s: string, depth: nat)
    requires |s| >= 3 && s[0] == '*' && s[1] == '*' && s[2] == '/'
    ensures Tail(s, depth) == "(?:[^/]*\\/)" + ("*" + Tail(s[3..], depth))
  {
    TailUnfolds(s, depth);
  }

  lemma DeepDirsReads(s: string, depth: nat)
    requires |s| >= 3 && s[0] == '*' && s[1] == '*' && s[2] == '/'
    ensures PieceReads(s, depth)
  {
    DeepDirsText(s, depth);
    DirectoryReads("*" + Tail(s[3..], depth));
  }

  lemma StarPieceReads(s: string, depth: nat)
    requires s != "" && (s[0] == '*' || s[0] == '?')
    ensures PieceReads(s, depth)
  {
    if s[0] == '?' { QuestionReads(s, depth); }
    else if |s| < 2 || s[1] != '*' { SingleStarReads(s, depth); }
    else if |s| < 3 || s[2] != '/' { DeepStarReads(s, depth); }
    else { DeepDirsReads(s, depth); }
  }

  lemma ClassAtomReads(negated: bool, body: string, x: string)
    requires ']' !in body
    requires !negated && body != "" ==> body[0] != '^'
    ensures ReAtom("[" + (if negated then "^" else "") + DoubleBackslashes(body) + "]" + x)
         == match Ranges(body)
            case None => Bad
            case Some(ranges) => Read(Class(negated, ranges), x)
  {
    var inside := DoubleBackslashes(body) + "]" + x;
    var text := "[" + (if negated then "^" else "") + DoubleBackslashes(body) + "]" + x;
    ClassReadsBack(body, x);
    if negated {
      assert text == "[^" + inside;
      assert text[2..] == inside;
    } else {
      assert text == "[" + inside;
      assert text[1..] == inside;
      assert inside[0] != '^';
    }
  }

  function SetOf(s: string): string
    requires s != "" && ']' in s[1..]
  {
    s[1..][..IndexOf(s[1..], ']').value]
  }

  lemma SetTurn(s: string, depth: nat)
    requires s != "" && s[0] == '[' && ']' in s[1..]
    ensures Scan(s, depth)
         == Turn("[" + (if Negated(SetOf(s)) then "^" else "") + DoubleBackslashes(SetBody(SetOf(s))) + "]", |SetOf(s)| + 2, depth)
  {
  }

  lemma SetPieceParses(s: string, inBraces: bool)
    requires s != "" && s[0] == '[' && ']' in s[1..]
    ensures ParsePiece(s, inBraces) == match Ranges(SetBody(SetOf(s)))
                                       case None => Bad
                                       case Some(ranges) => Read(CharSet(Negated(SetOf(s)), ranges), s[|SetOf(s)| + 2..])
  {
    assert s[1..][|SetOf(s)| + 1..] == s[|SetOf(s)| + 2..];
  }

  lemma SetText(s: string, depth: nat)
    requires s != "" && s[0] == '[' && ']' in s[1..]
    ensures Tail(s, depth) == "[" + (if Negated(SetOf(s)) then "^" else "") + DoubleBackslashes(SetBody(SetOf(s))) + "]"
                              + Tail(s[|SetOf(s)| + 2..], depth)
  {
    SetTurn(s, depth);
    TailUnfolds(s, depth);
  }

  lemma SetReads(s: string, depth: nat)
    requires s != "" && s[0] == '[' && ']' in s[1..]
    ensures ReAtom(Tail(s, depth)) == match Ranges(SetBody(SetOf(s)))
                                      case None => Bad
                                      case Some(ranges) => Read(Class(Negated(SetOf(s)), ranges), Tail(s[|SetOf(s)| + 2..], depth))
  {
    SetText(s, depth);
    ClassAtomReads(Negated(SetOf(s)), SetBody(SetOf(s)), Tail(s[|SetOf(s)| + 2..], depth));
  }

  lemma SetConcludes(p: Parsed<Piece>, atom: Parsed<Atom>, negated: bool, ranges: Option<seq<Range>>, rest: string, depth: nat)
    requires p == if ranges.None? then Bad else Read(CharSet(negated, ranges.value), rest)
    requires atom == if ranges.None? then Bad else Read(Class(negated, ranges.value), Tail(rest, depth))
    ensures ReadsAs(p, atom, depth)
  {
  }

  lemma SetPieceReads(s: string, depth: nat)
    requires s != "" && s[0] == '[' && ']' in s[1..]
    ensures PieceReads(s, depth)
  {
    var set_, rest := SetOf(s), s[|SetOf(s)| + 2..];
    SetPieceParses(s, depth > 0);
    SetReads(s, depth);
    SetConcludes(ParsePiece(s, depth > 0), ReAtom(Tail(s, depth)), Negated(set_), Ranges(SetBody(set_)), rest, depth);
  }

  lemma LiteralPieceReads(s: string, depth: nat)
    requires s != "" && s[0] != '*' && s[0] != '?' && s[0] != '{' && (s[0] == '[' ==> ']' !in s[1..])
    requires depth > 0 ==> s[0] != ',' && s[0] != '}'
    ensures PieceReads(s, depth)
  {
    TailUnfolds(s, depth);
    var text, x := Tail(s, depth), Tail(s[1..], depth);
    if IsSyntaxChar(s[0]) {
      assert text == ['\\', s[0]] + x;
      assert text[2..] == x;
    } else {
      assert text == [s[0]] + x;
      assert text[1..] == x;
    }
  }

  /** What the pattern reader makes of the text emitted for the inside of a brace. */
  ghost predicate AlternativesFollow(s: string, depth: nat)
    requires depth > 0
  {
    match ParseAlternatives(s)
    case Bad => ReDisjunction(Tail(s, depth)).Bad?
    case Read(alts, rest) => ReDisjunction(Tail(s, depth)) == Read(ToDisjunction(alts), Tail(rest, depth - 1))
  }

  lemma BraceFollows(s: string, depth: nat)
    requires s != "" && s[0] == '{' && AlternativesFollow(s[1..], depth + 1)
    ensures PieceReads(s, depth)
  {
    TailUnfolds(s, depth);
    GroupReads(Tail(s[1..], depth + 1));
  }

  lemma {:induction false} BracePieceReads(s: string, depth: nat)
    requires s != "" && s[0] == '{'
    ensures PieceReads(s, depth)
    decreases |s|, 0
  {
    AlternativesRead(s[1..], depth + 1);
    BraceFollows(s, depth);
  }

  predicate Stops(s: string, depth: nat) {
    s == "" || (depth > 0 && (s[0] == ',' || s[0] == '}'))
  }

  lemma TailStopsWithGlob(s: string, depth: nat)
    ensures Tail(s, depth) != ""
    ensures Stops(s, depth) <==> Tail(s, depth)[0] == ')' || Tail(s, depth)[0] == '|' || Tail(s, depth)[0] == '$'
  {
    if s != "" {
      TailUnfolds(s, depth);
    }
  }

  /** What the pattern reader makes of the text emitted for a glob suffix. */
  ghost predicate Follows(s: string, depth: nat) {
    match ParseGlob(s, depth > 0)
    case Bad => ReSequence(Tail(s, depth)).Bad?
    case Read(g, rest) => ReSequence(Tail(s, depth)) == Read(ToPattern(g), Tail(rest, depth))
  }

  lemma FollowsOn(s: string, depth: nat)
    requires !Stops(s, depth) && PieceReads(s, depth)
    requires var p := ParsePiece(s, depth > 0); p.Read? ==> Follows(p.rest, depth)
    ensures Follows(s, depth)
  {
    TailStopsWithGlob(s, depth);
    match ParsePiece(s, depth > 0) {
      case Bad =>
      case Read(piece, rest) =>
        TailStartsNoQuantifier(rest, depth);
        assert ("*" + Tail(rest, depth))[1..] == Tail(rest, depth);
    }
  }

  /** Reading the emitted text follows the glob, piece for piece: same tree,
      same stopping point, and a refusal exactly when the glob has none. */
  lemma {:induction false} SequenceReads(s: string, depth: nat)
    ensures Follows(s, depth)
    decreases |s|, 1
  {
    TailStopsWithGlob(s, depth);
    if !Stops(s, depth) {
      if s[0] == '*' || s[0] == '?' {
        StarPieceReads(s, depth);
      } else if s[0] == '[' && ']' in s[1..] {
        SetPieceReads(s, depth);
      } else if s[0] == '{' {
        BracePieceReads(s, depth);
      } else {
        LiteralPieceReads(s, depth);
      }
      var p := ParsePiece(s, depth > 0);
      if p.Read? {
        SequenceReads(p.rest, depth);
      }
      FollowsOn(s, depth);
    }
  }

  lemma {:induction false} AlternativesRead(s: string, depth: nat)
    requires depth > 0
    ensures AlternativesFollow(s, depth)
    decreases |s|, 2
  {
    SequenceReads(s, depth);
    match ParseGlob(s, true) {
      case Bad =>
      case Read(g, rest) =>
        if rest != "" {
          TailUnfolds(rest, depth);
          if rest[0] == ',' {
            AlternativesRead(rest[1..], depth);
          }
        }
    }
  }

  /** For every glob, the emitted text is a regular expression exactly when every
      brace closes and no set lists a backward range; it is then the expression
      whose groups nest as the braces do. */
  lemma CompiledTextReads(glob: string)
    ensures RegExpOf("^" + Emit(glob, 0) + "$")
         == match ParseGlob(glob, false)
            case Bad => None
            case Read(g, _) => Some(ToPattern(g))
  {
    SequenceReads(glob, 0);
    var text := "^" + Emit(glob, 0) + "$";
    assert text[1..] == Tail(glob, 0);
    match ParseGlob(glob, false) {
      case Bad =>
      case Read(g, rest) => assert rest == "";
    }
  }

  // --------------------------------------------------------------- meaning

  lemma {:induction false} ManyDots(s: string)
    ensures ManyMatch(Dot, s) <==> NewlineFree(s)
    decreases |s|
  {
    if s != "" {
      forall k | 0 < k <= |s| && AtomMatches(Dot, s[..k])
        ensures k == 1
      {
      }
      ManyDots(s[1..]);
      assert s == [s[0]] + s[1..];
      assert s[..1] == [s[0]];
      if NewlineFree(s) {
        assert forall k :: 0 <= k < |s| - 1 ==> s[1..][k] == s[k + 1];
        assert AtomMatches(Dot, s[..1]) && ManyMatch(Dot, s[1..]);
      }
      if ManyMatch(Dot, s) {
        var j :| 0 < j <= |s| && AtomMatches(Dot, s[..j]) && ManyMatch(Dot, s[j..]);
        assert j == 1 && s[..j][0] == s[0];
        forall k | 0 <= k < |s| ensures !IsLineTerminator(s[k]) {
          if k > 0 { assert s[k] == s[1..][k - 1]; }
        }
      }
    }
  }

  lemma NotSlashIsAnyOther(s: string)
    ensures AtomMatches(NOT_SLASH, s) <==> |s| == 1 && s[0] != '/'
  {
    assert |s| == 1 && s[0] == '/' ==> NOT_SLASH.ranges[0].lo <= s[0] <= NOT_SLASH.ranges[0].hi;
  }

  lemma {:induction false} ManyNotSlashes(s: string)
    ensures ManyMatch(NOT_SLASH, s) <==> '/' !in s
    decreases |s|
  {
    if s != "" {
      forall k | 0 < k <= |s| && AtomMatches(NOT_SLASH, s[..k])
        ensures k == 1
      {
        NotSlashIsAnyOther(s[..k]);
      }
      NotSlashIsAnyOther(s[..1]);
      ManyNotSlashes(s[1..]);
      assert s == [s[0]] + s[1..];
      if '/' !in s {
        assert AtomMatches(NOT_SLASH, s[..1]) && ManyMatch(NOT_SLASH, s[1..]);
      }
    }
  }

  const SLASH := Next(Once(Char('/')), Nothing)

  lemma SlashMatches(x: string)
    ensures PatternMatches(SLASH, x) <==> x == "/"
  {
    if x == "/" {
      assert x[..1] == "/" && x[1..] == "";
      assert TermMatches(Once(Char('/')), x[..1]) && PatternMatches(Nothing, x[1..]);
    }
    if PatternMatches(SLASH, x) {
      var k :| 0 <= k <= |x| && TermMatches(Once(Char('/')), x[..k]) && PatternMatches(Nothing, x[k..]);
      assert AtomMatches(Char('/'), x[..k]);
      assert x[..k] == "/" && x[k..] == "";
      assert x == x[..k] + x[k..];
    }
  }

  lemma DirectoryIsOneSegment(s: string)
    ensures AtomMatches(DIRECTORY, s) <==> s != "" && s[|s| - 1] == '/' && '/' !in s[..|s| - 1]
  {
    var p := Next(Many(NOT_SLASH), SLASH);
    assert DIRECTORY == Group(Single(p));
    assert AtomMatches(DIRECTORY, s) == DisjunctionMatches(Single(p), s) == PatternMatches(p, s);
    if PatternMatches(p, s) {
      var k :| 0 <= k <= |s| && TermMatches(Many(NOT_SLASH), s[..k]) && PatternMatches(SLASH, s[k..]);
      ManyNotSlashes(s[..k]);
      SlashMatches(s[k..]);
      assert s[k..][0] == s[k];
    }
    if s != "" && s[|s| - 1] == '/' && '/' !in s[..|s| - 1] {
      var k := |s| - 1;
      ManyNotSlashes(s[..k]);
      assert s[k..] == "/";
      SlashMatches(s[k..]);
      assert TermMatches(Many(NOT_SLASH), s[..k]) && PatternMatches(SLASH, s[k..]);
    }
  }

  lemma {:induction false} ManyDirectories(s: string)
    ensures ManyMatch(DIRECTORY, s) <==> s == "" || s[|s| - 1] == '/'
    decreases |s|
  {
    if s != "" {
      if ManyMatch(DIRECTORY, s) {
        var k :| 0 < k <= |s| && AtomMatches(DIRECTORY, s[..k]) && ManyMatch(DIRECTORY, s[k..]);
        DirectoryIsOneSegment(s[..k]);
        ManyDirectories(s[k..]);
        if k == |s| { assert s[..k] == s; }
      }
      if s[|s| - 1] == '/' {
        var first := IndexOf(s, '/').value;
        var k := first + 1;
        assert s[..k][..|s[..k]| - 1] == s[..first];
        DirectoryIsOneSegment(s[..k]);
        ManyDirectories(s[k..]);
        assert AtomMatches(DIRECTORY, s[..k]) && ManyMatch(DIRECTORY, s[k..]);
      }
    }
  }

  // A `**` compiles to `.*`, and the dot matches no line terminator. The meaning of a
  // glob with each `**` held to one line is what its pattern means on every path.

  predicate PieceMatchesInLine(piece: Piece, s: string)
    decreases piece, |s|
  {
    match piece
    case DeepStar => NewlineFree(s)
    case Braces(alts) => AlternativesMatchInLine(alts, s)
    case _ => PieceMatches(piece, s)
  }

  predicate AlternativesMatchInLine(alts: Alternatives, s: string)
    decreases alts, |s|
  {
    match alts
    case Only(g) => GlobMatchesInLine(g, s)
    case Or(g, others) => GlobMatchesInLine(g, s) || AlternativesMatchInLine(others, s)
  }

  predicate GlobMatchesInLine(g: Glob, s: string)
    decreases g, |s|
  {
    match g
    case End => s == ""
    case Then(piece, rest) => exists k :: 0 <= k <= |s| && PieceMatchesInLine(piece, s[..k]) && GlobMatchesInLine(rest, s[k..])
  }

  lemma {:induction false} PieceMeaning(piece: Piece, s: string)
    ensures PieceMatchesInLine(piece, s) <==> TermMatches(ToTerm(piece), s)
    decreases piece, 0
  {
    match piece {
      case Literal(_) =>
      case Star => ManyNotSlashes(s);
      case DeepStar => ManyDots(s);
      case DeepDirs => ManyDirectories(s);
      case AnyOne => NotSlashIsAnyOther(s);
      case CharSet(_, _) =>
      case Braces(alts) => AlternativesMeaning(alts, s);
    }
  }

  lemma {:induction false} AlternativesMeaning(alts: Alternatives, s: string)
    ensures AlternativesMatchInLine(alts, s) <==> DisjunctionMatches(ToDisjunction(alts), s)
    decreases alts, 0
  {
    match alts {
      case Only(g) => PatternMeaning(g, s);
      case Or(g, others) =>
        PatternMeaning(g, s);
        AlternativesMeaning(others, s);
    }
  }

  /** For every glob and every path, line terminators or not. */
  lemma {:induction false} PatternMeaning(g: Glob, s: string)
    ensures GlobMatchesInLine(g, s) <==> PatternMatches(ToPattern(g), s)
    decreases g, 0
  {
    match g {
      case End =>
      case Then(piece, rest) =>
        forall k | 0 <= k <= |s|
          ensures PieceMatchesInLine(piece, s[..k]) <==> TermMatches(ToTerm(piece), s[..k])
          ensures GlobMatchesInLine(rest, s[k..]) <==> PatternMatches(ToPattern(rest), s[k..])
        {
          PieceMeaning(piece, s[..k]);
          PatternMeaning(rest, s[k..]);
        }
        if GlobMatchesInLine(g, s) {
          var k :| 0 <= k <= |s| && PieceMatchesInLine(piece, s[..k]) && GlobMatchesInLine(rest, s[k..]);
          assert TermMatches(ToTerm(piece), s[..k]) && PatternMatches(ToPattern(rest), s[k..]);
        }
        if PatternMatches(ToPattern(g), s) {
          var k :| 0 <= k <= |s| && TermMatches(ToTerm(piece), s[..k]) && PatternMatches(ToPattern(rest), s[k..]);
          assert PieceMatchesInLine(piece, s[..k]) && GlobMatchesInLine(rest, s[k..]);
        }
    }
  }

  lemma NewlineFreeParts(s: string, k: nat)
    requires NewlineFree(s) && k <= |s|
    ensures NewlineFree(s[..k]) && NewlineFree(s[k..])
  {
    assert forall j :: 0 <= j < |s| - k ==> s[k..][j] == s[j + k];
  }

  lemma {:induction false} PieceInLine(piece: Piece, s: string)
    ensures PieceMatchesInLine(piece, s) ==> PieceMatches(piece, s)
    ensures NewlineFree(s) && PieceMatches(piece, s) ==> PieceMatchesInLine(piece, s)
    decreases piece, 0
  {
    if piece.Braces? { AlternativesInLine(piece.alts, s); }
  }

  lemma {:induction false} AlternativesInLine(alts: Alternatives, s: string)
    ensures AlternativesMatchInLine(alts, s) ==> AlternativesMatch(alts, s)
    ensures NewlineFree(s) && AlternativesMatch(alts, s) ==> AlternativesMatchInLine(alts, s)
    decreases alts, 0
  {
    match alts {
      case Only(g) => GlobInLine(g, s);
      case Or(g, others) =>
        GlobInLine(g, s);
        AlternativesInLine(others, s);
    }
  }

  /** Holding each `**` to one line only ever loses paths, and loses none that have no
      line terminator. */
  lemma {:induction false} GlobInLine(g: Glob, s: string)
    ensures GlobMatchesInLine(g, s) ==> GlobMatches(g, s)
    ensures NewlineFree(s) && GlobMatches(g, s) ==> GlobMatchesInLine(g, s)
    decreases g, 0
  {
    if g.Then? {
      if GlobMatchesInLine(g, s) {
        var k :| 0 <= k <= |s| && PieceMatchesInLine(g.piece, s[..k]) && GlobMatchesInLine(g.rest, s[k..]);
        PieceInLine(g.piece, s[..k]);
        GlobInLine(g.rest, s[k..]);
      }
      if NewlineFree(s) && GlobMatches(g, s) {
        var k :| 0 <= k <= |s| && PieceMatches(g.piece, s[..k]) && GlobMatches(g.rest, s[k..]);
        NewlineFreeParts(s, k);
        PieceInLine(g.piece, s[..k]);
        GlobInLine(g.rest, s[k..]);
      }
    }
  }

  lemma GlobMeans(g: Glob, s: string)
    requires NewlineFree(s)
    ensures GlobMatches(g, s) <==> PatternMatches(ToPattern(g), s)
  {
    PatternMeaning(g, s);
    GlobInLine(g, s);
  }

  /** Main theorem: whenever the constructor accepts the compiled text, the
      expression matches a path exactly when the glob does with each `**` held to one
      line; for a newline-free path, exactly when the glob does. */
  lemma CompiledGlobMeansGlob(glob: string, path: string)
    ensures var re := RegExpOf("^" + Emit(glob, 0) + "$");
            var parsed := ParseGlob(glob, false);
            re.Some? == parsed.Read? &&
            (re.Some? ==> (PatternMatches(re.value, path) <==> GlobMatchesInLine(parsed.value, path))
                          && (NewlineFree(path) ==> (PatternMatches(re.value, path) <==> GlobMatches(parsed.value, path))))
  {
    CompiledTextReads(glob);
    match ParseGlob(glob, false) {
      case Bad =>
      case Read(g, _) =>
        PatternMeaning(g, path);
        GlobInLine(g, path);
    }
  }

  const DEEP := Then(DeepStar, End)
  const NAMED_A := Then(Literal('a'), Then(Star, End))

  /** The glob `**` means a line terminator that its pattern misses. */
  lemma DeepStarStopsAtNewline()
    ensures GlobMatches(DEEP, "\n") && !PatternMatches(ToPattern(DEEP), "\n")
  {
    var newline := "\n";
    PatternMeaning(DEEP, newline);
    assert newline[..1] == newline && newline[1..] == "" && IsLineTerminator(newline[0]);
    assert PieceMatches(DeepStar, newline[..1]) && GlobMatches(End, newline[1..]);
    forall k | 0 <= k <= |newline|
      ensures !(PieceMatchesInLine(DeepStar, newline[..k]) && GlobMatchesInLine(End, newline[k..]))
    {
      if k == 1 { assert newline[..k][0] == '\n'; }
    }
  }

  /** The glob `a*` and its pattern agree on a text with one. */
  lemma StarSpansNewline()
    ensures GlobMatches(NAMED_A, "a\nb") && PatternMatches(ToPattern(NAMED_A), "a\nb")
  {
    var text, tail := "a\nb", "\nb";
    PatternMeaning(NAMED_A, text);
    GlobInLine(NAMED_A, text);
    assert tail[..2] == tail && tail[2..] == "";
    assert PieceMatchesInLine(Star, tail[..2]) && GlobMatchesInLine(End, tail[2..]);
    assert text[..1] == "a" && text[1..] == tail;
    assert PieceMatchesInLine(Literal('a'), text[..1]) && GlobMatchesInLine(Then(Star, End), text[1..]);
  }
}
