/** The incremental reader of one SMTP reply, over the bytes a socket delivers in
    chunks of any size. Section 4.2.1 of RFC 5321 gives the form of a reply. */
module SmtpReplies {
  import opened Base

  type Byte = b: int | 0 <= b < 256

  const LF: Byte := 10
  const CR: Byte := 13
  const SPACE: Byte := 32
  const HYPHEN: Byte := 45
  const CRLF: seq<Byte> := [CR, LF]
  const LIMIT := 64 * 1024

  datatype Outcome = Pending | Reply(code: int, text: seq<Byte>) | Malformed | CodeChanged | TooLarge

  // -------------------------------------------------------------- lines

  function NewlineAt(s: seq<Byte>): (i: int)
    ensures -1 <= i < |s| && (i >= 0 ==> s[i] == LF)
  {
    if s == [] then -1
    else if s[0] == LF then 0
    else
      var i := NewlineAt(s[1..]);
      if i < 0 then -1 else i + 1
  }

  function WithoutCR(line: seq<Byte>): seq<Byte> {
    if line != [] && line[|line| - 1] == CR then line[..|line| - 1] else line
  }

  predicate Digit(b: Byte) {
    48 <= b <= 57
  }

  /** The characters `.` does not match: line feed, carriage return, and the UTF-8
      forms of U+2028 and U+2029. */
  predicate EndsLineAt(s: seq<Byte>, i: nat)
    requires i < |s|
  {
    || s[i] == LF || s[i] == CR
    || (i + 2 < |s| && s[i] == 226 && s[i + 1] == 128 && (s[i + 2] == 168 || s[i + 2] == 169))
  }

  predicate PlainText(s: seq<Byte>) {
    forall i :: 0 <= i < |s| ==> !EndsLineAt(s, i)
  }

  datatype Head = Head(code: int, continues: bool)

  /** `^(\d{3})(?:([- ])(.*))?$`. */
  function MatchLine(line: seq<Byte>): Option<Head> {
    if |line| < 3 || !Digit(line[0]) || !Digit(line[1]) || !Digit(line[2]) then None
    else
      var code := (line[0] as int - 48) * 100 + (line[1] as int - 48) * 10 + (line[2] as int - 48);
      if |line| == 3 then Some(Head(code, false))
      else if (line[3] == HYPHEN || line[3] == SPACE) && PlainText(line[4..]) then Some(Head(code, line[3] == HYPHEN))
      else None
  }

  // ------------------------------------------------- the whole-stream parse

  /** The lines of a stream that are terminated. */
  function CompleteLines(stream: seq<Byte>): seq<seq<Byte>>
    decreases |stream|
  {
    var i := NewlineAt(stream);
    if i < 0 then [] else [WithoutCR(stream[..i])] + CompleteLines(stream[i + 1..])
  }

  /** A reply is the lines up to the first that does not announce another. */
  function ReadLines(lines: seq<seq<Byte>>, expected: Option<int>, text: seq<Byte>): Outcome {
    if lines == [] then Pending
    else if lines[0] == [] then ReadLines(lines[1..], expected, text)
    else
      match MatchLine(lines[0])
      case None => Malformed
      case Some(Head(code, continues)) =>
        if expected.Some? && expected.value != code then CodeChanged
        else if continues then ReadLines(lines[1..], Some(code), text + lines[0] + CRLF)
        else Reply(code, text + lines[0] + CRLF)
  }

  function Parse(stream: seq<Byte>): Outcome {
    ReadLines(CompleteLines(stream), None, [])
  }

  // -------------------------------------------------- the reader's state

  datatype Parser = Parser(buffer: seq<Byte>, text: seq<Byte>, expected: Option<int>, outcome: Outcome)
  datatype Reader = Reader(bytes: nat, p: Parser)

  const FRESH := Reader(0, Received([]))

  function Received(stream: seq<Byte>): Parser {
    Parser(stream, [], None, Pending)
  }

  predicate HasLine(r: Parser) {
    r.outcome == Pending && NewlineAt(r.buffer) >= 0
  }

  /** One turn of the loop over the buffered lines. */
  function TakeLine(r: Parser): (taken: Parser)
    requires HasLine(r)
    ensures |taken.buffer| < |r.buffer|
  {
    var i := NewlineAt(r.buffer);
    var line := WithoutCR(r.buffer[..i]);
    var rest := r.(buffer := r.buffer[i + 1..]);
    if line == [] then rest
    else
      match MatchLine(line)
      case None => rest.(outcome := Malformed)
      case Some(Head(code, continues)) =>
        if r.expected.Some? && r.expected.value != code then rest.(outcome := CodeChanged)
        else
          var text := r.text + line + CRLF;
          rest.(expected := Some(code), text := text, outcome := if continues then Pending else Reply(code, text))
  }

  function Drain(r: Parser): Parser
    decreases |r.buffer|
  {
    if HasLine(r) then Drain(TakeLine(r)) else r
  }

  function Extended(p: Parser, chunk: seq<Byte>): Parser {
    p.(buffer := p.buffer + chunk)
  }

  /** One `data` event; a settled reader no longer listens. */
  function OnData(r: Reader, chunk: seq<Byte>): Reader {
    if r.p.outcome != Pending then r
    else if r.bytes + |chunk| > LIMIT then Reader(r.bytes + |chunk|, r.p.(outcome := TooLarge))
    else Reader(r.bytes + |chunk|, Drain(Extended(r.p, chunk)))
  }

  class ReplyReader {
    var buffer: seq<Byte>
    var text: seq<Byte>
    var bytes: nat
    var expectedCode: Option<int>
    var outcome: Outcome

    function Parsed(): Parser
      reads this
    {
      Parser(buffer, text, expectedCode, outcome)
    }

    function Contents(): Reader
      reads this
    {
      Reader(bytes, Parsed())
    }

    constructor ()
      ensures Contents() == FRESH
    {
      buffer, text, bytes, expectedCode, outcome := [], [], 0, None, Pending;
    }

    method OnChunk(chunk: seq<Byte>)
      modifies this
      ensures Contents() == OnData(old(Contents()), chunk)
    {
      if outcome != Pending { return; }
      bytes := bytes + |chunk|;
      if bytes > LIMIT { outcome := TooLarge; return; }
      buffer := buffer + chunk;
      OnLines();
    }

    method OnLines()
      modifies this
      ensures Parsed() == Drain(old(Parsed())) && bytes == old(bytes)
    {
      while outcome == Pending && NewlineAt(buffer) >= 0
        invariant Drain(Parsed()) == Drain(old(Parsed())) && bytes == old(bytes)
        decreases |buffer|
      {
        ghost var before := Parsed();
        assert HasLine(before) && Drain(before) == Drain(TakeLine(before));
        OnLine();
      }
    }

    /** A settled promise ends the loop by returning from the event handler. */
    method OnLine()
      requires HasLine(Parsed())
      modifies this
      ensures Parsed() == TakeLine(old(Parsed())) && bytes == old(bytes)
    {
      var newline := NewlineAt(buffer);
      var line := WithoutCR(buffer[..newline]);
      buffer := buffer[newline + 1..];
      if line == [] { return; }
      var head := MatchLine(line);
      if head.None? { outcome := Malformed; return; }
      if expectedCode.Some? && head.value.code != expectedCode.value { outcome := CodeChanged; return; }
      expectedCode := Some(head.value.code);
      text := text + line + CRLF;
      if !head.value.continues { outcome := Reply(head.value.code, text); }
    }
  }

  // --------------------------------------------------- one chunk or many

  lemma {:induction false} NewlineInAppend(a: seq<Byte>, b: seq<Byte>)
    ensures NewlineAt(a + b) == if NewlineAt(a) >= 0 then NewlineAt(a)
                                else if NewlineAt(b) >= 0 then |a| + NewlineAt(b) else -1
  {
    if a == [] {
      assert a + b == b;
    } else {
      assert (a + b)[1..] == a[1..] + b;
      NewlineInAppend(a[1..], b);
    }
  }

  lemma TakeLineAppend(p: Parser, more: seq<Byte>)
    requires HasLine(p)
    ensures HasLine(Extended(p, more)) && TakeLine(Extended(p, more)) == Extended(TakeLine(p), more)
  {
    NewlineInAppend(p.buffer, more);
    var i := NewlineAt(p.buffer);
    var all := p.buffer + more;
    assert all[..i] == p.buffer[..i] && all[i + 1..] == p.buffer[i + 1..] + more;
  }

  /** Draining, receiving more and draining again is draining once. */
  lemma {:induction false} DrainAppend(p: Parser, more: seq<Byte>)
    ensures Drain(Extended(p, more)) == Drain(Extended(Drain(p), more))
    decreases |p.buffer|
  {
    if HasLine(p) {
      TakeLineAppend(p, more);
      DrainAppend(TakeLine(p), more);
    }
  }

  lemma {:induction false} DrainReadsLines(r: Parser)
    requires r.outcome == Pending
    ensures Drain(r).outcome == ReadLines(CompleteLines(r.buffer), r.expected, r.text)
    decreases |r.buffer|
  {
    if HasLine(r) {
      var lines := CompleteLines(r.buffer);
      assert lines[1..] == CompleteLines(TakeLine(r).buffer);
      if TakeLine(r).outcome == Pending { DrainReadsLines(TakeLine(r)); }
    }
  }

  function Feed(r: Reader, chunks: seq<seq<Byte>>): Reader {
    if chunks == [] then r else OnData(Feed(r, chunks[..|chunks| - 1]), chunks[|chunks| - 1])
  }

  function Concat(chunks: seq<seq<Byte>>): seq<Byte> {
    if chunks == [] then [] else Concat(chunks[..|chunks| - 1]) + chunks[|chunks| - 1]
  }

  /** How many whole chunks arrive before the size limit is passed. */
  function WithinLimit(chunks: seq<seq<Byte>>): (n: nat)
    ensures n <= |chunks| && |Concat(chunks[..n])| <= LIMIT
    ensures n < |chunks| ==> |Concat(chunks[..n + 1])| > LIMIT
  {
    if chunks == [] then 0
    else
      var last := |chunks| - 1;
      var n := WithinLimit(chunks[..last]);
      assert chunks[..last][..n] == chunks[..n];
      assert n < last ==> chunks[..last][..n + 1] == chunks[..n + 1];
      assert chunks[..last + 1] == chunks;
      if n < last || |Concat(chunks)| > LIMIT then n else |chunks|
  }

  predicate SameOutcome(r: Reader, stream: seq<Byte>) {
    && r.p.outcome == Drain(Received(stream)).outcome
    && (r.p.outcome == Pending ==> r == Reader(|stream|, Drain(Received(stream))))
  }

  lemma ChunkKeepsSameOutcome(r: Reader, stream: seq<Byte>, chunk: seq<Byte>)
    requires SameOutcome(r, stream) && |stream + chunk| <= LIMIT
    ensures SameOutcome(OnData(r, chunk), stream + chunk)
  {
    DrainAppend(Received(stream), chunk);
    assert Extended(Received(stream), chunk) == Received(stream + chunk);
  }

  /** While nothing is decided, the reader is where one drain of all bytes leaves it. */
  lemma {:induction false} FeedIsDrain(chunks: seq<seq<Byte>>)
    requires |Concat(chunks)| <= LIMIT
    ensures SameOutcome(Feed(FRESH, chunks), Concat(chunks))
  {
    if chunks != [] {
      var n := |chunks| - 1;
      FeedIsDrain(chunks[..n]);
      ChunkKeepsSameOutcome(Feed(FRESH, chunks[..n]), Concat(chunks[..n]), chunks[n]);
    }
  }

  lemma FeedParses(chunks: seq<seq<Byte>>)
    requires |Concat(chunks)| <= LIMIT
    ensures Feed(FRESH, chunks).p.outcome == Parse(Concat(chunks))
    ensures Feed(FRESH, chunks).p.outcome == Pending ==> Feed(FRESH, chunks).bytes == |Concat(chunks)|
  {
    FeedIsDrain(chunks);
    DrainReadsLines(Received(Concat(chunks)));
  }

  /** The outcome for every stream and every split: the parse of the chunks within
      the limit, or the limit error if they decide nothing and more arrived. */
  lemma {:induction false} OutcomeOfChunks(chunks: seq<seq<Byte>>)
    ensures var n := WithinLimit(chunks);
            var parsed := Parse(Concat(chunks[..n]));
            Feed(FRESH, chunks).p.outcome == if parsed != Pending || n == |chunks| then parsed else TooLarge
  {
    var n := WithinLimit(chunks);
    if n == |chunks| {
      assert chunks[..n] == chunks;
      FeedParses(chunks);
    } else {
      var last := |chunks| - 1;
      assert chunks[..last][..n] == chunks[..n];
      if n == last {
        FeedParses(chunks[..n]);
        assert chunks[..n + 1] == chunks;
      } else {
        OutcomeOfChunks(chunks[..last]);
      }
    }
  }

  /** Within the limit the split into chunks does not matter. */
  lemma SplitsDoNotMatter(a: seq<seq<Byte>>, b: seq<seq<Byte>>)
    requires Concat(a) == Concat(b) && |Concat(a)| <= LIMIT
    ensures Feed(FRESH, a).p.outcome == Feed(FRESH, b).p.outcome == Parse(Concat(a))
  {
    FeedParses(a);
    FeedParses(b);
  }

  // ------------------------------------------------- which replies are read

  /** Every line but the last announces another under the same code; empty lines
      are skipped. */
  predicate Framed(lines: seq<seq<Byte>>, code: int) {
    && lines != []
    && (forall i :: 0 <= i < |lines| - 1 ==> lines[i] == [] || MatchLine(lines[i]) == Some(Head(code, true)))
    && lines[|lines| - 1] != [] && MatchLine(lines[|lines| - 1]) == Some(Head(code, false))
  }

  function Rejoined(lines: seq<seq<Byte>>): seq<Byte> {
    if lines == [] then []
    else (if lines[0] == [] then [] else lines[0] + CRLF) + Rejoined(lines[1..])
  }

  lemma {:induction false} FramedIsRead(lines: seq<seq<Byte>>, k: nat, code: int, expected: Option<int>, acc: seq<Byte>)
    requires k < |lines| && Framed(lines[..k + 1], code) && OrElse(expected, code) == code
    ensures ReadLines(lines, expected, acc) == Reply(code, acc + Rejoined(lines[..k + 1]))
  {
    var framed := lines[..k + 1];
    assert framed[0] == lines[0];
    if k == 0 {
      assert Rejoined(framed) == lines[0] + CRLF;
      assert acc + lines[0] + CRLF == acc + (lines[0] + CRLF);
    } else {
      assert lines[1..][..k] == framed[1..];
      if lines[0] == [] {
        FramedIsRead(lines[1..], k - 1, code, expected, acc);
        assert Rejoined(framed) == Rejoined(framed[1..]);
      } else {
        FramedIsRead(lines[1..], k - 1, code, Some(code), acc + lines[0] + CRLF);
        assert acc + lines[0] + CRLF + Rejoined(framed[1..]) == acc + Rejoined(framed);
      }
    }
  }

  lemma {:induction false} ReadIsFramed(lines: seq<seq<Byte>>, expected: Option<int>, acc: seq<Byte>) returns (k: nat)
    requires ReadLines(lines, expected, acc).Reply?
    ensures k < |lines| && Framed(lines[..k + 1], ReadLines(lines, expected, acc).code)
    ensures OrElse(expected, ReadLines(lines, expected, acc).code) == ReadLines(lines, expected, acc).code
  {
    if lines[0] != [] && !MatchLine(lines[0]).value.continues {
      k := 0;
    } else {
      if lines[0] == [] {
        k := ReadIsFramed(lines[1..], expected, acc);
      } else {
        k := ReadIsFramed(lines[1..], Some(MatchLine(lines[0]).value.code), acc + lines[0] + CRLF);
      }
      var framed := lines[1..][..k + 1];
      assert lines[..k + 2] == [lines[0]] + framed;
      k := k + 1;
    }
  }

  predicate FramedBy(lines: seq<seq<Byte>>, k: nat, code: int, text: seq<Byte>) {
    k < |lines| && Framed(lines[..k + 1], code) && text == Rejoined(lines[..k + 1])
  }

  /** Do the first `k + 1` lines of the stream frame this reply? */
  predicate StreamFrames(stream: seq<Byte>, k: nat, code: int, text: seq<Byte>) {
    FramedBy(CompleteLines(stream), k, code, text)
  }

  lemma FramedByIsRead(lines: seq<seq<Byte>>, k: nat, code: int, text: seq<Byte>)
    requires FramedBy(lines, k, code, text)
    ensures ReadLines(lines, None, []) == Reply(code, text)
  {
    FramedIsRead(lines, k, code, None, []);
    assert [] + Rejoined(lines[..k + 1]) == Rejoined(lines[..k + 1]);
  }

  /** A stream yields a reply exactly when some first lines of it frame one; the
      text is those lines, each ended by CRLF. */
  lemma ReplyExactly(stream: seq<Byte>, code: int, text: seq<Byte>)
    ensures Parse(stream) == Reply(code, text) <==> exists k: nat :: StreamFrames(stream, k, code, text)
  {
    var lines := CompleteLines(stream);
    if Parse(stream) == Reply(code, text) {
      var k := ReadIsFramed(lines, None, []);
      assert FramedBy(lines, k, code, Rejoined(lines[..k + 1]));
      FramedByIsRead(lines, k, code, Rejoined(lines[..k + 1]));
      assert StreamFrames(stream, k, code, text);
    } else if k: nat :| StreamFrames(stream, k, code, text) {
      FramedByIsRead(lines, k, code, text);
    }
  }

  // --------------------------------------------- what becomes of any stream

  /** A reply line in the words of section 4.2 of RFC 5321: three digits, then nothing,
      or a hyphen if another line follows, else a space, and text within one line. */
  predicate ReplyLine(line: seq<Byte>, code: int, more: bool) {
    && |line| >= 3 && 48 <= line[0] <= 57 && 48 <= line[1] <= 57 && 48 <= line[2] <= 57
    && code == 100 * (line[0] as int - 48) + 10 * (line[1] as int - 48) + (line[2] as int - 48)
    && (if |line| == 3 then !more else line[3] == (if more then HYPHEN else SPACE) && OneLine(line[4..]))
  }

  predicate StandsAt(text: seq<Byte>, i: nat, word: seq<Byte>) {
    i + |word| <= |text| && text[i..i + |word|] == word
  }

  predicate OneLine(text: seq<Byte>) {
    && LF !in text && CR !in text
    && forall i :: 0 <= i < |text| ==> !StandsAt(text, i, [0xE2, 0x80, 0xA8]) && !StandsAt(text, i, [0xE2, 0x80, 0xA9])
  }

  lemma PlainIsOneLine(text: seq<Byte>)
    ensures PlainText(text) <==> OneLine(text)
  {
    if PlainText(text) {
      forall i | 0 <= i < |text| ensures text[i] != LF && text[i] != CR { assert !EndsLineAt(text, i); }
      forall i | 0 <= i < |text| ensures !StandsAt(text, i, [0xE2, 0x80, 0xA8]) && !StandsAt(text, i, [0xE2, 0x80, 0xA9]) {
        assert !EndsLineAt(text, i);
        if i + 3 <= |text| { assert text[i..i + 3] == [text[i], text[i + 1], text[i + 2]]; }
      }
    }
    if OneLine(text) {
      forall i | 0 <= i < |text| ensures !EndsLineAt(text, i) {
        assert text[i] in text;
        assert !StandsAt(text, i, [0xE2, 0x80, 0xA8]) && !StandsAt(text, i, [0xE2, 0x80, 0xA9]);
        if i + 2 < |text| { assert text[i..i + 3] == [text[i], text[i + 1], text[i + 2]]; }
      }
    }
  }

  /** Exactly the reply lines are taken for one. */
  lemma MatchedExactly(line: seq<Byte>, code: int, more: bool)
    ensures MatchLine(line) == Some(Head(code, more)) <==> ReplyLine(line, code, more)
  {
    if |line| > 3 { PlainIsOneLine(line[4..]); }
  }

  /** The first `k` lines announce another one under this code; empty ones are skipped. */
  predicate Announce(lines: seq<seq<Byte>>, k: nat, code: int) {
    k <= |lines| && forall i :: 0 <= i < k ==> lines[i] == [] || ReplyLine(lines[i], code, true)
  }

  predicate SaysNothing(lines: seq<seq<Byte>>, k: nat) {
    k <= |lines| && forall i :: 0 <= i < k ==> lines[i] == []
  }

  /** Line `k` is the first that is neither empty nor announces another under the code
      that the first line set. */
  ghost predicate EndsAt(lines: seq<seq<Byte>>, k: nat, code: int) {
    && Announce(lines, k, code)
    && (k < |lines| ==>
          && lines[k] != [] && !ReplyLine(lines[k], code, true)
          && (SaysNothing(lines, k) ==> forall other, more :: ReplyLine(lines[k], other, more) ==> other == code))
  }

  lemma {:induction false} FindEnd(lines: seq<seq<Byte>>, expected: Option<int>) returns (k: nat, code: int)
    ensures expected.Some? ==> code == expected.value
    ensures Announce(lines, k, code) && (k < |lines| ==> lines[k] != [] && !ReplyLine(lines[k], code, true))
    ensures expected.None? ==> EndsAt(lines, k, code)
  {
    if lines == [] {
      k, code := 0, OrElse(expected, 0);
    } else {
      var line := lines[0];
      var first := if line == [] then None else MatchLine(line);
      if line == [] || (first.Some? && first.value.continues && OrElse(expected, first.value.code) == first.value.code) {
        if line != [] { MatchedExactly(line, first.value.code, true); }
        k, code := FindEnd(lines[1..], if line == [] then expected else Some(first.value.code));
        k := k + 1;
      } else {
        k, code := 0, OrElse(expected, if first.Some? then first.value.code else 0);
        if first.Some? { MatchedExactly(line, first.value.code, first.value.continues); }
        MatchedExactly(line, code, true);
        forall other, more | ReplyLine(line, other, more) ensures first == Some(Head(other, more)) { MatchedExactly(line, other, more); }
      }
    }
  }

  /** What the line that ends it makes of the reply. */
  function OutcomeAt(lines: seq<seq<Byte>>, k: nat, code: int): Outcome
    requires k <= |lines|
  {
    if k == |lines| then Pending
    else if ReplyLine(lines[k], code, false) then Reply(code, Rejoined(lines[..k + 1]))
    else if MatchLine(lines[k]).Some? then CodeChanged else Malformed
  }

  lemma {:induction false} ReadToTheEnd(lines: seq<seq<Byte>>, k: nat, code: int, expected: Option<int>, acc: seq<Byte>)
    requires Announce(lines, k, code) && (k < |lines| ==> lines[k] != [] && !ReplyLine(lines[k], code, true))
    requires OrElse(expected, code) == code
    requires expected.None? ==> EndsAt(lines, k, code)
    ensures var r := OutcomeAt(lines, k, code);
            ReadLines(lines, expected, acc) == if r.Reply? then Reply(code, acc + r.text) else r
  {
    if k == 0 {
      if lines != [] {
        var head := MatchLine(lines[0]);
        if head.Some? { MatchedExactly(lines[0], head.value.code, head.value.continues); }
        MatchedExactly(lines[0], code, false);
        assert Rejoined(lines[..1]) == lines[0] + CRLF;
        assert acc + lines[0] + CRLF == acc + (lines[0] + CRLF);
      }
    } else {
      var rest := lines[1..];
      if k < |lines| { assert lines[..k + 1][1..] == rest[..k]; }
      if lines[0] == [] {
        ReadToTheEnd(rest, k - 1, code, expected, acc);
      } else {
        MatchedExactly(lines[0], code, true);
        ReadToTheEnd(rest, k - 1, code, Some(code), acc + lines[0] + CRLF);
        if k < |lines| { assert acc + lines[0] + CRLF + Rejoined(rest[..k]) == acc + Rejoined(lines[..k + 1]); }
      }
    }
  }

  /** Every stream has such an end, and it alone decides the outcome: more is awaited,
      the reply is complete, the line is none, or its code is another. */
  lemma OutcomeExactly(stream: seq<Byte>) returns (k: nat, code: int)
    ensures EndsAt(CompleteLines(stream), k, code) && Parse(stream) == OutcomeAt(CompleteLines(stream), k, code)
    ensures forall j: nat, other :: EndsAt(CompleteLines(stream), j, other) ==> Parse(stream) == OutcomeAt(CompleteLines(stream), j, other)
  {
    var lines := CompleteLines(stream);
    k, code := FindEnd(lines, None);
    forall j: nat, other | EndsAt(lines, j, other) ensures Parse(stream) == OutcomeAt(lines, j, other) {
      ReadToTheEnd(lines, j, other, None, []);
      if OutcomeAt(lines, j, other).Reply? { assert [] + Rejoined(lines[..j + 1]) == Rejoined(lines[..j + 1]); }
    }
  }

  /** And the lines of a stream are what stands between its line feeds, without the
      carriage return before each; what follows the last is still awaited. */
  lemma {:induction false} LinesMakeTheStream(lines: seq<seq<Byte>>, rest: seq<Byte>)
    requires (forall i :: 0 <= i < |lines| ==> LF !in lines[i]) && LF !in rest
    ensures CompleteLines(Terminated(lines) + rest) == lines
  {
    if lines == [] {
      NoNewline(rest);
      assert Terminated(lines) + rest == rest;
    } else {
      assert Terminated(lines) + rest == lines[0] + CRLF + (Terminated(lines[1..]) + rest);
      FirstLine(lines[0], Terminated(lines[1..]) + rest);
      LinesMakeTheStream(lines[1..], rest);
    }
  }

  function Terminated(lines: seq<seq<Byte>>): seq<Byte> {
    if lines == [] then [] else lines[0] + CRLF + Terminated(lines[1..])
  }

  // ------------------------------------------------------------ round trip

  predicate CodeDigits(code: seq<Byte>) {
    |code| == 3 && Digit(code[0]) && Digit(code[1]) && Digit(code[2])
  }

  function CodeOf(code: seq<Byte>): int
    requires CodeDigits(code)
  {
    (code[0] as int - 48) * 100 + (code[1] as int - 48) * 10 + (code[2] as int - 48)
  }

  /** A reply as section 4.2.1 of RFC 5321 writes it: a hyphen after the code on
      every line but the last, a space on the last. */
  function Render(code: seq<Byte>, texts: seq<seq<Byte>>): seq<Byte>
    requires texts != []
  {
    if |texts| == 1 then code + [SPACE] + texts[0] + CRLF
    else code + [HYPHEN] + texts[0] + CRLF + Render(code, texts[1..])
  }

  lemma {:induction false} NoNewline(s: seq<Byte>)
    requires LF !in s
    ensures NewlineAt(s) == -1
  {
    if s != [] { NoNewline(s[1..]); }
  }

  lemma FirstLine(line: seq<Byte>, rest: seq<Byte>)
    requires LF !in line
    ensures CompleteLines(line + CRLF + rest) == [line] + CompleteLines(rest)
  {
    var stream := line + CRLF + rest;
    NoNewline(line);
    assert stream == line + (CRLF + rest);
    NewlineInAppend(line, CRLF + rest);
    assert (CRLF + rest)[1..] == [LF] + rest;
    assert NewlineAt(stream) == |line| + 1;
    assert stream[..|line| + 1] == line + [CR];
    assert stream[|line| + 2..] == rest;
  }

  lemma PlainHasNoNewline(text: seq<Byte>)
    requires PlainText(text)
    ensures LF !in text
  {
    forall i | 0 <= i < |text| ensures text[i] != LF { assert !EndsLineAt(text, i); }
  }

  lemma RenderedLine(code: seq<Byte>, separator: Byte, text: seq<Byte>, rest: seq<Byte>)
    requires CodeDigits(code) && PlainText(text) && (separator == SPACE || separator == HYPHEN)
    ensures var line := code + [separator] + text;
            && CompleteLines(line + CRLF + rest) == [line] + CompleteLines(rest)
            && MatchLine(line) == Some(Head(CodeOf(code), separator == HYPHEN))
  {
    var line := code + [separator] + text;
    PlainHasNoNewline(text);
    FirstLine(line, rest);
    assert line[4..] == text;
  }

  lemma ReadHead(line: seq<Byte>, lines: seq<seq<Byte>>, head: Head, expected: Option<int>, acc: seq<Byte>)
    requires line != [] && MatchLine(line) == Some(head) && OrElse(expected, head.code) == head.code
    ensures ReadLines([line] + lines, expected, acc) ==
            if head.continues then ReadLines(lines, Some(head.code), acc + line + CRLF) else Reply(head.code, acc + line + CRLF)
  {
    assert ([line] + lines)[1..] == lines;
  }

  lemma RenderedHead(code: seq<Byte>, text: seq<Byte>, last: bool, after: seq<Byte>, expected: Option<int>, acc: seq<Byte>)
    requires CodeDigits(code) && PlainText(text) && OrElse(expected, CodeOf(code)) == CodeOf(code)
    ensures var line := code + [if last then SPACE else HYPHEN] + text;
            ReadLines(CompleteLines(line + CRLF + after), expected, acc) ==
            if last then Reply(CodeOf(code), acc + line + CRLF)
            else ReadLines(CompleteLines(after), Some(CodeOf(code)), acc + line + CRLF)
  {
    RenderedLine(code, if last then SPACE else HYPHEN, text, after);
    ReadHead(code + [if last then SPACE else HYPHEN] + text, CompleteLines(after), Head(CodeOf(code), !last), expected, acc);
  }

  predicate AllPlain(texts: seq<seq<Byte>>) {
    forall i :: 0 <= i < |texts| ==> PlainText(texts[i])
  }

  lemma RenderedLast(code: seq<Byte>, text: seq<Byte>, rest: seq<Byte>, expected: Option<int>, acc: seq<Byte>)
    requires CodeDigits(code) && PlainText(text) && OrElse(expected, CodeOf(code)) == CodeOf(code)
    ensures ReadLines(CompleteLines(Render(code, [text]) + rest), expected, acc) == Reply(CodeOf(code), acc + Render(code, [text]))
  {
    var line := code + [SPACE] + text;
    RenderedHead(code, text, true, rest, expected, acc);
    assert Render(code, [text]) == line + CRLF;
    assert acc + line + CRLF == acc + (line + CRLF);
  }

  lemma RenderedFirst(code: seq<Byte>, texts: seq<seq<Byte>>, rest: seq<Byte>, expected: Option<int>, acc: seq<Byte>)
    requires CodeDigits(code) && |texts| > 1 && PlainText(texts[0]) && OrElse(expected, CodeOf(code)) == CodeOf(code)
    ensures var line := code + [HYPHEN] + texts[0];
            && Render(code, texts) == line + CRLF + Render(code, texts[1..])
            && ReadLines(CompleteLines(Render(code, texts) + rest), expected, acc)
               == ReadLines(CompleteLines(Render(code, texts[1..]) + rest), Some(CodeOf(code)), acc + line + CRLF)
  {
    var line := code + [HYPHEN] + texts[0];
    var tail := Render(code, texts[1..]);
    assert Render(code, texts) + rest == line + CRLF + (tail + rest);
    RenderedHead(code, texts[0], false, tail + rest, expected, acc);
  }

  lemma {:induction false} RenderedIsRead(code: seq<Byte>, texts: seq<seq<Byte>>, rest: seq<Byte>, expected: Option<int>, acc: seq<Byte>)
    requires CodeDigits(code) && texts != [] && AllPlain(texts) && OrElse(expected, CodeOf(code)) == CodeOf(code)
    ensures ReadLines(CompleteLines(Render(code, texts) + rest), expected, acc) == Reply(CodeOf(code), acc + Render(code, texts))
  {
    if |texts| == 1 {
      assert texts == [texts[0]];
      RenderedLast(code, texts[0], rest, expected, acc);
    } else {
      var line := code + [HYPHEN] + texts[0];
      RenderedFirst(code, texts, rest, expected, acc);
      RenderedIsRead(code, texts[1..], rest, Some(CodeOf(code)), acc + line + CRLF);
      assert acc + line + CRLF + Render(code, texts[1..]) == acc + (line + CRLF + Render(code, texts[1..]));
    }
  }

  /** A rendered reply within the limit is read back whole, however the network
      splits it, and bytes that follow it change nothing. */
  lemma RenderedIsReadBack(code: seq<Byte>, texts: seq<seq<Byte>>, rest: seq<Byte>, chunks: seq<seq<Byte>>)
    requires CodeDigits(code) && texts != [] && AllPlain(texts)
    requires Concat(chunks) == Render(code, texts) + rest && |Concat(chunks)| <= LIMIT
    ensures Feed(FRESH, chunks).p.outcome == Reply(CodeOf(code), Render(code, texts))
  {
    FeedParses(chunks);
    RenderedIsRead(code, texts, rest, None, []);
    assert [] + Render(code, texts) == Render(code, texts);
  }
}
