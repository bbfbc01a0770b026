/** The glob compiler: one pass over the glob with a stack of open braces,
    emitting the source text of an anchored regular expression.

    The module gives globs a meaning of their own (`ParseGlob`, `GlobMatches`),
    gives the emitted text the meaning a JavaScript engine gives it
    (`ReSequence`, `PatternMatches`), and relates the two. */
module Globs {
  import opened Base

  // ---------------------------------------------------------------- globs

  datatype Range = Range(lo: char, hi: char)

  datatype Piece =
    | Literal(c: char)
    | Star                                         // *
    | DeepStar                                     // **
    | DeepDirs                                     // **/
    | AnyOne                                       // ?
    | CharSet(negated: bool, ranges: seq<Range>)   // [abc] [!a-z]
    | Braces(alts: Alternatives)                   // {a,b}

  datatype Glob = End | Then(piece: Piece, rest: Glob)
  datatype Alternatives = Only(last: Glob) | Or(first: Glob, others: Alternatives)

  /** What a parser leaves behind: a value and the unread text, or a refusal. */
  datatype Parsed<+T> = Read(value: T, rest: string) | Bad

  function IndexOf(s: string, c: char): (k: Option<nat>)
    ensures k.None? <==> c !in s
    ensures k.Some? ==> k.value < |s| && s[k.value] == c && c !in s[..k.value]
  {
    if s == "" then None
    else if s[0] == c then Some(0)
    else
      var k := IndexOf(s[1..], c);
      if k.None? then None
      else
        assert s[..k.value + 1] == [s[0]] + s[1..][..k.value];
        Some(k.value + 1)
  }

  /** The members a class text such as `a-z_` lists; None when a range runs
      backwards, which the regular expression constructor refuses. */
  function Ranges(atoms: string): Option<seq<Range>> {
    if atoms == "" then Some([])
    else if |atoms| >= 3 && atoms[1] == '-' then
      var others := Ranges(atoms[3..]);
      if atoms[0] > atoms[2] || others.None? then None else Some([Range(atoms[0], atoms[2])] + others.value)
    else
      var others := Ranges(atoms[1..]);
      if others.None? then None else Some([Range(atoms[0], atoms[0])] + others.value)
  }

  predicate Negated(set_: string) {
    set_ != "" && (set_[0] == '!' || set_[0] == '^')
  }

  function SetBody(set_: string): string {
    if Negated(set_) then set_[1..] else set_
  }

  /** A glob reads left to right; inside braces it stops at `,` and `}`. */
  function ParseGlob(s: string, inBraces: bool): (p: Parsed<Glob>)
    ensures p.Read? ==> |p.rest| <= |s|
    ensures p.Read? && p.rest != "" ==> inBraces && (p.rest[0] == ',' || p.rest[0] == '}')
    decreases |s|, 1
  {
    if s == "" || (inBraces && (s[0] == ',' || s[0] == '}')) then Read(End, s)
    else
      match ParsePiece(s, inBraces)
      case Bad => Bad
      case Read(piece, rest) =>
        match ParseGlob(rest, inBraces)
        case Bad => Bad
        case Read(more, rest') => Read(Then(piece, more), rest')
  }

  function ParsePiece(s: string, inBraces: bool): (p: Parsed<Piece>)
    requires s != ""
    ensures p.Read? ==> |p.rest| < |s|
    decreases |s|, 0
  {
    if s[0] == '*' then
      if |s| >= 2 && s[1] == '*' then
        if |s| >= 3 && s[2] == '/' then Read(DeepDirs, s[3..]) else Read(DeepStar, s[2..])
      else Read(Star, s[1..])
    else if s[0] == '?' then Read(AnyOne, s[1..])
    else if s[0] == '[' && ']' in s[1..] then
      var close := IndexOf(s[1..], ']').value;
      var set_ := s[1..][..close];
      var ranges := Ranges(SetBody(set_));
      if ranges.None? then Bad else Read(CharSet(Negated(set_), ranges.value), s[1..][close + 1..])
    else if s[0] == '{' then
      match ParseAlternatives(s[1..])
      case Bad => Bad
      case Read(alts, rest) => Read(Braces(alts), rest)
    else Read(Literal(s[0]), s[1..])
  }

  /** The text after `{`: alternatives up to the matching `}`. */
  function ParseAlternatives(s: string): (p: Parsed<Alternatives>)
    ensures p.Read? ==> |p.rest| < |s|
    decreases |s|, 2
  {
    match ParseGlob(s, true)
    case Bad => Bad
    case Read(g, rest) =>
      if rest == "" then Bad
      else if rest[0] == '}' then Read(Only(g), rest[1..])
      else
        match ParseAlternatives(rest[1..])
        case Bad => Bad
        case Read(others, rest') => Read(Or(g, others), rest')
  }

  predicate InRanges(c: char, ranges: seq<Range>) {
    exists k :: 0 <= k < |ranges| && ranges[k].lo <= c <= ranges[k].hi
  }

  /** What each glob piece stands for, without reference to any pattern. */
  predicate PieceMatches(piece: Piece, s: string)
    decreases piece, |s|
  {
    match piece
    case Literal(c) => s == [c]
    case Star => '/' !in s
    case DeepStar => true
    case DeepDirs => s == "" || s[|s| - 1] == '/'
    case AnyOne => |s| == 1 && s[0] != '/'
    case CharSet(negated, ranges) => |s| == 1 && (InRanges(s[0], ranges) != negated)
    case Braces(alts) => AlternativesMatch(alts, s)
  }

  predicate AlternativesMatch(alts: Alternatives, s: string)
    decreases alts, |s|
  {
    match alts
    case Only(g) => GlobMatches(g, s)
    case Or(g, others) => GlobMatches(g, s) || AlternativesMatch(others, s)
  }

  predicate GlobMatches(g: Glob, s: string)
    decreases g, |s|
  {
    match g
    case End => s == ""
    case Then(piece, rest) => exists k :: 0 <= k <= |s| && PieceMatches(piece, s[..k]) && GlobMatches(rest, s[k..])
  }

  // -------------------------------------------------- regular expressions

  datatype Atom = Char(c: char) | Dot | Class(negated: bool, ranges: seq<Range>) | Group(body: Disjunction)
  datatype Term = Once(atom: Atom) | Many(atom: Atom)
  datatype Pattern = Nothing | Next(term: Term, rest: Pattern)
  datatype Disjunction = Single(last: Pattern) | Either(first: Pattern, others: Disjunction)

  predicate IsLineTerminator(c: char) {
    c == '\n' || c == '\r' || c == '\U{2028}' || c == '\U{2029}'
  }

  predicate NewlineFree(s: string) {
    forall k :: 0 <= k < |s| ==> s[k] != '\n' && s[k] != '\r' && s[k] != '\U{2028}' && s[k] != '\U{2029}'
  }

  predicate AtomMatches(a: Atom, s: string)
    decreases a, |s|
  {
    match a
    case Char(c) => s == [c]
    case Dot => |s| == 1 && !IsLineTerminator(s[0])
    case Class(negated, ranges) => |s| == 1 && (InRanges(s[0], ranges) != negated)
    case Group(body) => DisjunctionMatches(body, s)
  }

  predicate DisjunctionMatches(d: Disjunction, s: string)
    decreases d, |s|
  {
    match d
    case Single(p) => PatternMatches(p, s)
    case Either(p, others) => PatternMatches(p, s) || DisjunctionMatches(others, s)
  }

  /** `a*`: the string is a row of non-empty pieces that `a` matches. */
  predicate ManyMatch(a: Atom, s: string)
    decreases a, |s| + 1
  {
    s == "" || exists k :: 0 < k <= |s| && AtomMatches(a, s[..k]) && ManyMatch(a, s[k..])
  }

  predicate TermMatches(t: Term, s: string)
    decreases t, |s|
  {
    match t
    case Once(a) => AtomMatches(a, s)
    case Many(a) => ManyMatch(a, s)
  }

  predicate PatternMatches(p: Pattern, s: string)
    decreases p, |s|
  {
    match p
    case Nothing => s == ""
    case Next(t, rest) => exists k :: 0 <= k <= |s| && TermMatches(t, s[..k]) && PatternMatches(rest, s[k..])
  }

  /** The members of a class up to the closing bracket, escapes resolved. */
  function ReClass(t: string): (p: Parsed<string>)
    ensures p.Read? ==> |p.rest| < |t|
  {
    if t == "" then Bad
    else if t[0] == ']' then Read("", t[1..])
    else if t[0] == '\\' then
      if |t| < 2 then Bad
      else
        match ReClass(t[2..])
        case Bad => Bad
        case Read(more, rest) => Read([t[1]] + more, rest)
    else
      match ReClass(t[1..])
      case Bad => Bad
      case Read(more, rest) => Read([t[0]] + more, rest)
  }

  predicate IsSyntaxChar(c: char) {
    || c == '.' || c == '+' || c == '^' || c == '$' || c == '{' || c == '}' || c == '('
    || c == ')' || c == '|' || c == '[' || c == ']' || c == '\\'
  }

  /** One pattern atom. Escapes of letters and digits (`\d`, `\1`) and the
      quantifiers other than `*` never occur in compiled globs; the reader
      refuses them rather than give them a wrong meaning. */
  function ReAtom(t: string): (p: Parsed<Atom>)
    requires t != ""
    ensures p.Read? ==> |p.rest| < |t|
    decreases |t|, 0
  {
    if t[0] == '.' then Read(Dot, t[1..])
    else if t[0] == '\\' then
      if |t| >= 2 && (IsSyntaxChar(t[1]) || t[1] == '/') then Read(Char(t[1]), t[2..]) else Bad
    else if t[0] == '[' then
      var negated := |t| >= 2 && t[1] == '^';
      match ReClass(if negated then t[2..] else t[1..])
      case Bad => Bad
      case Read(atoms, rest) =>
        var ranges := Ranges(atoms);
        if ranges.None? then Bad else Read(Class(negated, ranges.value), rest)
    else if t[0] == '(' then
      if |t| >= 3 && t[1] == '?' && t[2] == ':' then
        match ReDisjunction(t[3..])
        case Bad => Bad
        case Read(d, rest) => Read(Group(d), rest)
      else Bad
    else if IsSyntaxChar(t[0]) || t[0] == '*' || t[0] == '?' then Bad
    else Read(Char(t[0]), t[1..])
  }

  /** A sequence of terms, up to the end, a `)`, a `|` or the `$` anchor. */
  function ReSequence(t: string): (p: Parsed<Pattern>)
    ensures p.Read? ==> |p.rest| <= |t|
    decreases |t|, 1
  {
    if t == "" || t[0] == ')' || t[0] == '|' || t[0] == '$' then Read(Nothing, t)
    else
      match ReAtom(t)
      case Bad => Bad
      case Read(a, rest) =>
        var starred := rest != "" && rest[0] == '*';
        match ReSequence(if starred then rest[1..] else rest)
        case Bad => Bad
        case Read(more, rest') => Read(Next(if starred then Many(a) else Once(a), more), rest')
  }

  function ReDisjunction(t: string): (p: Parsed<Disjunction>)
    ensures p.Read? ==> |p.rest| < |t|
    decreases |t|, 2
  {
    match ReSequence(t)
    case Bad => Bad
    case Read(p, rest) =>
      if rest == "" || (rest[0] != ')' && rest[0] != '|') then Bad
      else if rest[0] == ')' then Read(Single(p), rest[1..])
      else
        match ReDisjunction(rest[1..])
        case Bad => Bad
        case Read(others, rest') => Read(Either(p, others), rest')
  }

  /** `new RegExp(text)` for an anchored text: None when the constructor throws. */
  function RegExpOf(text: string): Option<Pattern> {
    if text == "" || text[0] != '^' then None
    else
      match ReSequence(text[1..])
      case Bad => None
      case Read(p, rest) => if rest == "$" then Some(p) else None
  }

  // ------------------------------------------------------------- compiler

  function DoubleBackslashes(s: string): string {
    if s == "" then "" else (if s[0] == '\\' then "\\\\" else [s[0]]) + DoubleBackslashes(s[1..])
  }

  function Escaped(c: char): string {
    if IsSyntaxChar(c) then ['\\', c] else [c]
  }

  /** What one turn of the loop emits, consumes, and leaves on the brace stack. */
  datatype Turn = Turn(text: string, used: nat, depth: nat)

  function Scan(s: string, depth: nat): (t: Turn)
    requires s != ""
    ensures 0 < t.used <= |s|
  {
    if s[0] == '*' then
      if |s| >= 2 && s[1] == '*' then
        if |s| >= 3 && s[2] == '/' then Turn("(?:[^/]*\\/)*", 3, depth) else Turn(".*", 2, depth)
      else Turn("[^/]*", 1, depth)
    else if s[0] == '?' then Turn("[^/]", 1, depth)
    else if s[0] == '[' then
      match IndexOf(s[1..], ']')
      case None => Turn("\\[", 1, depth)
      case Some(close) =>
        var set_ := s[1..][..close];
        Turn("[" + (if Negated(set_) then "^" else "") + DoubleBackslashes(SetBody(set_)) + "]", close + 2, depth)
    else if s[0] == '{' then Turn("(?:", 1, depth + 1)
    else if s[0] == '}' && depth > 0 then Turn(")", 1, depth - 1)
    else if s[0] == ',' && depth > 0 then Turn("|", 1, depth)
    else Turn(Escaped(s[0]), 1, depth)
  }

  function Emit(s: string, depth: nat): string
    decreases |s|
  {
    if s == "" then "" else Scan(s, depth).text + Emit(s[Scan(s, depth).used..], Scan(s, depth).depth)
  }

  lemma EmitTurn(out: string, s: string, depth: nat)
    requires s != ""
    ensures var t := Scan(s, depth);
            out + Emit(s, depth) == (out + t.text) + Emit(s[t.used..], t.depth)
  {
  }

  /** One turn of the loop, from position `i`. */
  method OneTurn(glob: string, i: nat, stack: seq<bool>) returns (text: string, used: nat, braceStack: seq<bool>)
    requires i < |glob|
    ensures Turn(text, used, |braceStack|) == Scan(glob[i..], |stack|)
  {
    var ch := glob[i];
    text, used, braceStack := "", 1, stack;
    if ch == '*' {
      if i + 1 < |glob| && glob[i + 1] == '*' {
        if i + 2 < |glob| && glob[i + 2] == '/' {
          text, used := "(?:[^/]*\\/)*", 3;
        } else {
          text, used := ".*", 2;
        }
      } else {
        text := "[^/]*";
      }
    } else if ch == '?' {
      text := "[^/]";
    } else if ch == '[' {
      text, used := OneSet(glob, i);
    } else if ch == '{' {
      braceStack, text := braceStack + [true], "(?:";
    } else if ch == '}' && |braceStack| > 0 {
      braceStack, text := braceStack[..|braceStack| - 1], ")";
    } else if ch == ',' && |braceStack| > 0 {
      text := "|";
    } else {
      text := Escaped(ch);
    }
  }

  method OneSet(glob: string, i: nat) returns (text: string, used: nat)
    requires i < |glob| && glob[i] == '['
    ensures forall depth: nat :: Turn(text, used, depth) == Scan(glob[i..], depth)
  {
    assert glob[i..][1..] == glob[i + 1..];
    var close := IndexOf(glob[i + 1..], ']');
    if close.None? { return "\\[", 1; }
    var set_ := glob[i + 1..][..close.value];
    var negate := "";
    if Negated(set_) { negate, set_ := "^", set_[1..]; }
    return "[" + negate + DoubleBackslashes(set_) + "]", close.value + 2;
  }

  lemma SuffixOfSuffix(s: string, i: nat, n: nat)
    requires i + n <= |s|
    ensures s[i..][n..] == s[i + n..]
  {
  }

  /** The loop of the compiler. */
  method Translate(glob: string) returns (out: string)
    ensures out == Emit(glob, 0)
  {
    var i := 0;
    out := "";
    var braceStack: seq<bool> := [];
    while i < |glob|
      invariant i <= |glob|
      invariant out + Emit(glob[i..], |braceStack|) == Emit(glob, 0)
    {
      EmitTurn(out, glob[i..], |braceStack|);
      var text, used, stack := OneTurn(glob, i, braceStack);
      SuffixOfSuffix(glob, i, used);
      out, i, braceStack := out + text, i + used, stack;
    }
  }
}
