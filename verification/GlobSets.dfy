/** What the class of a glob lists, and how a bracket is read. */
module GlobSets {
  import opened Base
  import opened Globs

  /** Is the character one of those the class text lists? None if the text is refused. */
  function Lists(atoms: string, c: char): Option<bool> {
    var ranges := Ranges(atoms);
    if ranges.None? then None else Some(InRanges(c, ranges.value))
  }

  function Either(a: bool, b: Option<bool>): Option<bool> {
    if b.None? then None else Some(a || b.value)
  }

  lemma InOneMore(c: char, r: Range, ranges: seq<Range>)
    ensures InRanges(c, [r] + ranges) <==> r.lo <= c <= r.hi || InRanges(c, ranges)
  {
    var all := [r] + ranges;
    if InRanges(c, ranges) {
      var k :| 0 <= k < |ranges| && ranges[k].lo <= c <= ranges[k].hi;
      assert all[k + 1] == ranges[k];
    }
    if r.lo <= c <= r.hi { assert all[0] == r; }
  }

  /** A first character, a hyphen and another one list all between the two, and are
      refused if there can be none; whatever follows is listed as well. */
  lemma RangeLists(a: char, b: char, rest: string, c: char)
    ensures Lists([a, '-', b] + rest, c) == if a > b then None else Either(a <= c && c <= b, Lists(rest, c))
  {
    var atoms := [a, '-', b] + rest;
    assert atoms[3..] == rest;
    if a <= b && Ranges(rest).Some? { InOneMore(c, Range(a, b), Ranges(rest).value); }
  }

  /** Any other first character lists itself; so does a hyphen that stands first or last. */
  lemma CharacterLists(a: char, rest: string, c: char)
    requires |rest| < 2 || rest[0] != '-'
    ensures Lists([a] + rest, c) == Either(c == a, Lists(rest, c))
  {
    var atoms := [a] + rest;
    assert atoms[1..] == rest;
    if Ranges(rest).Some? { InOneMore(c, Range(a, a), Ranges(rest).value); }
  }

  /** So a text without hyphens lists exactly its own characters, an empty one none. */
  lemma {:induction false} PlainSetLists(atoms: string, c: char)
    requires '-' !in atoms
    ensures Lists(atoms, c) == Some(c in atoms)
  {
    if atoms != "" {
      PlainSetLists(atoms[1..], c);
      CharacterLists(atoms[0], atoms[1..], c);
      assert atoms == [atoms[0]] + atoms[1..];
    }
  }

  lemma {:induction false} FirstAt(body: string, c: char, rest: string)
    requires c !in body
    ensures IndexOf(body + [c] + rest, c) == Some(|body|)
  {
    var s := body + [c] + rest;
    assert s[|body|] == c;
    if body != "" {
      assert s[1..] == body[1..] + [c] + rest;
      FirstAt(body[1..], c, rest);
    }
  }

  lemma BracketSplits(set_: string, rest: string)
    requires ']' !in set_
    ensures var s := "[" + set_ + "]" + rest;
            && s[0] == '[' && ']' in s[1..] && IndexOf(s[1..], ']') == Some(|set_|)
            && s[1..][..|set_|] == set_ && s[1..][|set_| + 1..] == rest
  {
    var s := "[" + set_ + "]" + rest;
    assert s[1..] == set_ + "]" + rest;
    FirstAt(set_, ']', rest);
  }

  lemma MarkSplits(mark: string, body: string)
    requires mark in {"", "!", "^"} && (mark == "" && body != "" ==> body[0] !in {'!', '^'})
    ensures SetBody(mark + body) == body && (Negated(mark + body) <==> mark != "")
  {
    if mark == "" { assert mark + body == body; } else { assert (mark + body)[1..] == body; }
  }

  /** A bracket is read up to the first closing one. Behind an exclamation mark or a
      caret it stands for the characters not listed, else for those listed. */
  lemma BracketReads(mark: string, body: string, rest: string, inBraces: bool)
    requires mark in {"", "!", "^"} && ']' !in body && (mark == "" && body != "" ==> body[0] !in {'!', '^'})
    ensures ParsePiece("[" + (mark + body) + "]" + rest, inBraces)
            == if Ranges(body).None? then Bad else Read(CharSet(mark != "", Ranges(body).value), rest)
  {
    BracketSplits(mark + body, rest);
    MarkSplits(mark, body);
  }

  /** Without a closing bracket it is an ordinary character. */
  lemma OpenBracketReads(rest: string, inBraces: bool)
    requires ']' !in rest
    ensures ParsePiece("[" + rest, inBraces) == Read(Literal('['), rest)
  {
    assert ("[" + rest)[1..] == rest;
  }
}
