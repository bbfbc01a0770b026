/** How a message body is made safe for the SMTP DATA command, and what a receiver
    following section 4.5.2 of RFC 5321 makes of it. */
module DotStuffing {
  import opened Base

  const CRLF := "\r\n"
  const TERMINATOR := "\r\n.\r\n"

  predicate StartsWithCrlf(s: string) {
    |s| >= 2 && s[0] == '\r' && s[1] == '\n'
  }

  /** `replace(/\r?\n/g, '\r\n')`. */
  function Normalize(s: string): string {
    if s == [] then []
    else if StartsWithCrlf(s) then CRLF + Normalize(s[2..])
    else if s[0] == '\n' then CRLF + Normalize(s[1..])
    else [s[0]] + Normalize(s[1..])
  }

  /** The characters after which a multiline `^` matches. */
  predicate EndsLine(c: char) {
    c == '\n' || c == '\r' || c == '\U{2028}' || c == '\U{2029}'
  }

  /** `replace(/^\./gm, '..')`. */
  function Stuff(s: string, atStart: bool): string {
    if s == [] then []
    else (if atStart && s[0] == '.' then ".." else [s[0]]) + Stuff(s[1..], EndsLine(s[0]))
  }

  function EncodeBody(body: string): string {
    Stuff(Normalize(body), true)
  }

  // ------------------------------------------------------------ the receiver

  /** The text received so far, and what follows the end of the data. */
  datatype Mail = Incomplete | Received(text: string, rest: string)

  function Prepend(head: string, m: Mail): Mail {
    if m.Received? then Received(head + m.text, m.rest) else Incomplete
  }

  /** Lines end in CRLF. A line of one period ends the data; from any other line a
      leading period is removed. */
  function Receive(wire: string, atStart: bool): Mail {
    if wire == [] then Incomplete
    else if atStart && wire[0] == '.' then
      if StartsWithCrlf(wire[1..]) then Received("", wire[3..]) else Receive(wire[1..], false)
    else if StartsWithCrlf(wire) then Prepend(CRLF, Receive(wire[2..], true))
    else Prepend([wire[0]], Receive(wire[1..], false))
  }

  // ----------------------------------------------------- normalized text

  /** Every line feed follows a carriage return. */
  predicate Crlf(s: string) {
    forall i :: 0 <= i < |s| && s[i] == '\n' ==> 0 < i && s[i - 1] == '\r'
  }

  lemma CrlfTail(s: string)
    requires Crlf(s) && s != []
    ensures StartsWithCrlf(s) ==> Crlf(s[2..])
    ensures !StartsWithCrlf(s) ==> s[0] != '\n' && Crlf(s[1..])
  {
    if !StartsWithCrlf(s) {
      forall i | 0 <= i < |s[1..]| && s[1..][i] == '\n' ensures 0 < i && s[1..][i - 1] == '\r' {
        assert s[i + 1] == '\n';
      }
    } else {
      forall i | 0 <= i < |s[2..]| && s[2..][i] == '\n' ensures 0 < i && s[2..][i - 1] == '\r' {
        assert s[i + 2] == '\n';
      }
    }
  }

  lemma {:induction false} NormalizedIsCrlf(s: string)
    ensures Crlf(Normalize(s))
  {
    if s != [] {
      NormalizedIsCrlf(s[1..]);
      if StartsWithCrlf(s) { NormalizedIsCrlf(s[2..]); }
    }
  }

  /** Normalizing changes nothing but bare line feeds. */
  lemma {:induction false} NormalizeKeepsExactly(s: string)
    ensures Normalize(s) == s <==> Crlf(s)
  {
    NormalizedIsCrlf(s);
    if Crlf(s) { CrlfIsKept(s); }
  }

  lemma {:induction false} CrlfIsKept(s: string)
    requires Crlf(s)
    ensures Normalize(s) == s
  {
    if s != [] {
      CrlfTail(s);
      if StartsWithCrlf(s) {
        CrlfIsKept(s[2..]);
        assert s == CRLF + s[2..];
      } else {
        CrlfIsKept(s[1..]);
      }
    }
  }

  // ------------------------------------------ what the receiver makes of it

  /** A period that the sender takes for the start of a line but the receiver,
      which knows only CRLF, does not. */
  predicate BareDotAt(s: string, i: int) {
    0 <= i && i + 1 < |s| && s[i + 1] == '.' && (s[i] == '\r' || s[i] == '\U{2028}' || s[i] == '\U{2029}')
  }

  predicate HasBareDot(s: string) {
    exists i :: 0 <= i < |s| && BareDotAt(s, i)
  }

  /** The text with exactly those periods doubled; `forSender` and `forReceiver` say
      whether each takes the next character for the first of a line. */
  function BareDotsDoubled(s: string, forSender: bool, forReceiver: bool): string {
    if s == [] then []
    else if s[0] == '.' then
      (if forSender && !forReceiver then ".." else ".") + BareDotsDoubled(s[1..], false, false)
    else if StartsWithCrlf(s) then CRLF + BareDotsDoubled(s[2..], true, true)
    else [s[0]] + BareDotsDoubled(s[1..], EndsLine(s[0]), false)
  }

  lemma StuffCrlf(s: string, atStart: bool)
    requires StartsWithCrlf(s)
    ensures Stuff(s, atStart) == CRLF + Stuff(s[2..], true)
  {
    assert s[1..][1..] == s[2..];
  }

  lemma StuffHead(s: string, atStart: bool)
    ensures s != [] ==> Stuff(s, atStart) != [] && Stuff(s, atStart)[0] == s[0]
  {
  }

  lemma ReceiveCrlf(rest: string, atStart: bool)
    ensures Receive(CRLF + rest, atStart) == Prepend(CRLF, Receive(rest, true))
  {
    assert (CRLF + rest)[2..] == rest;
  }

  lemma ReceiveChar(c: char, rest: string, atStart: bool)
    requires !(atStart && c == '.') && !(c == '\r' && rest != [] && rest[0] == '\n')
    ensures Receive([c] + rest, atStart) == Prepend([c], Receive(rest, false))
  {
    assert ([c] + rest)[1..] == rest;
  }

  lemma ReceiveTerminator(rest: string, atStart: bool)
    ensures Receive(TERMINATOR + rest, atStart) == Received(CRLF, rest)
  {
    assert TERMINATOR + rest == CRLF + (".\r\n" + rest);
    ReceiveCrlf(".\r\n" + rest, atStart);
    assert (".\r\n" + rest)[1..] == CRLF + rest && (".\r\n" + rest)[3..] == rest;
  }

  lemma ReceiveStuffedDot(rest: string)
    requires !StartsWithCrlf(rest)
    ensures Receive("." + rest, true) == Receive(rest, false)
  {
    assert ("." + rest)[1..] == rest;
  }

  lemma PrependTwice(a: string, b: string, m: Mail)
    ensures Prepend(a, Prepend(b, m)) == Prepend(a + b, m)
  {
    if m.Received? { assert a + (b + m.text) == a + b + m.text; }
  }

  lemma ReceiveHead(c: char, tail: string, forSender: bool, forReceiver: bool)
    requires forReceiver ==> forSender
    requires tail != [] && !(c == '\r' && tail[0] == '\n')
    ensures Receive((if forSender && c == '.' then ".." else [c]) + tail, forReceiver)
            == Prepend(if c == '.' && forSender && !forReceiver then ".." else [c], Receive(tail, false))
  {
    if c == '.' && forSender {
      assert ".." + tail == "." + ("." + tail);
      ReceiveChar('.', tail, false);
      if forReceiver {
        ReceiveStuffedDot("." + tail);
      } else {
        ReceiveChar('.', "." + tail, false);
        PrependTwice(".", ".", Receive(tail, false));
      }
    } else {
      ReceiveChar(c, tail, forReceiver);
    }
  }

  /** What follows the first character on the wire never completes a CRLF. */
  lemma TailHead(s: string, rest: string)
    requires Crlf(s) && s != [] && !StartsWithCrlf(s)
    ensures var tail := Stuff(s[1..], EndsLine(s[0])) + TERMINATOR + rest;
            tail != [] && !(s[0] == '\r' && tail[0] == '\n')
  {
    StuffHead(s[1..], EndsLine(s[0]));
  }

  function Wire(s: string, forSender: bool, rest: string): string {
    Stuff(s, forSender) + TERMINATOR + rest
  }

  predicate ReadAs(s: string, forSender: bool, forReceiver: bool, rest: string) {
    Receive(Wire(s, forSender, rest), forReceiver) == Received(BareDotsDoubled(s, forSender, forReceiver) + CRLF, rest)
  }

  lemma ReadCrlf(s: string, forSender: bool, forReceiver: bool, rest: string)
    requires StartsWithCrlf(s) && ReadAs(s[2..], true, true, rest)
    ensures ReadAs(s, forSender, forReceiver, rest)
  {
    var tail := Wire(s[2..], true, rest);
    StuffCrlf(s, forSender);
    assert Wire(s, forSender, rest) == CRLF + tail;
    ReceiveCrlf(tail, forReceiver);
    var d := BareDotsDoubled(s[2..], true, true);
    assert CRLF + (d + CRLF) == CRLF + d + CRLF;
  }

  lemma Regroup(a: string, b: string, c: string)
    ensures a + (b + c) == a + b + c
  {
  }

  lemma WireHead(s: string, forSender: bool, rest: string)
    requires s != []
    ensures Wire(s, forSender, rest)
            == (if forSender && s[0] == '.' then ".." else [s[0]]) + Wire(s[1..], EndsLine(s[0]), rest)
  {
  }

  lemma ReadChar(s: string, forSender: bool, forReceiver: bool, rest: string)
    requires Crlf(s) && s != [] && !StartsWithCrlf(s) && (forReceiver ==> forSender)
    requires ReadAs(s[1..], EndsLine(s[0]), false, rest)
    ensures ReadAs(s, forSender, forReceiver, rest)
  {
    TailHead(s, rest);
    WireHead(s, forSender, rest);
    ReceiveHead(s[0], Wire(s[1..], EndsLine(s[0]), rest), forSender, forReceiver);
    Regroup(if s[0] == '.' && forSender && !forReceiver then ".." else [s[0]], BareDotsDoubled(s[1..], EndsLine(s[0]), false), CRLF);
  }

  lemma {:induction false} ReceiveStuffed(s: string, forSender: bool, forReceiver: bool, rest: string)
    requires Crlf(s) && (forReceiver ==> forSender)
    ensures ReadAs(s, forSender, forReceiver, rest)
  {
    if s == [] {
      assert Wire(s, forSender, rest) == TERMINATOR + rest;
      ReceiveTerminator(rest, forReceiver);
    } else if StartsWithCrlf(s) {
      CrlfTail(s);
      ReceiveStuffed(s[2..], true, true, rest);
      ReadCrlf(s, forSender, forReceiver, rest);
    } else {
      CrlfTail(s);
      ReceiveStuffed(s[1..], EndsLine(s[0]), false, rest);
      ReadChar(s, forSender, forReceiver, rest);
    }
  }

  /** For every text whatever, the receiver finds the end of the data exactly where
      the sender put it, and reads the normalized text with each bare dot doubled. */
  lemma ReceiverReads(body: string, rest: string)
    ensures Receive(EncodeBody(body) + TERMINATOR + rest, true)
            == Received(BareDotsDoubled(Normalize(body), true, true) + CRLF, rest)
  {
    NormalizedIsCrlf(body);
    ReceiveStuffed(Normalize(body), true, true, rest);
  }

  // ---------------------------------------------------- when it is undone

  lemma BareDotStep(s: string, n: nat)
    requires 0 < n <= |s| && (n == 1 || (n == 2 && StartsWithCrlf(s)))
    ensures HasBareDot(s) <==> (n == 1 && BareDotAt(s, 0)) || HasBareDot(s[n..])
  {
    if i :| 0 <= i < |s| && BareDotAt(s, i) && i >= n { assert BareDotAt(s[n..], i - n); }
    if i :| 0 <= i < |s[n..]| && BareDotAt(s[n..], i) { assert BareDotAt(s, i + n); }
  }

  lemma {:induction false} DoubledLength(s: string, forSender: bool, forReceiver: bool)
    requires Crlf(s)
    ensures var d := BareDotsDoubled(s, forSender, forReceiver);
            var clean := !HasBareDot(s) && !(forSender && !forReceiver && s != [] && s[0] == '.');
            if clean then d == s else |d| > |s|
    ensures |BareDotsDoubled(s, forSender, forReceiver)| >= |s|
  {
    if s != [] {
      CrlfTail(s);
      if StartsWithCrlf(s) {
        DoubledLength(s[2..], true, true);
        BareDotStep(s, 2);
        assert s == CRLF + s[2..];
      } else {
        DoubledLength(s[1..], EndsLine(s[0]), false);
        BareDotStep(s, 1);
        assert s == [s[0]] + s[1..];
      }
    }
  }

  lemma {:induction false} NormalizingKeepsBareDots(s: string)
    ensures HasBareDot(Normalize(s)) <==> HasBareDot(s)
  {
    if s != [] {
      var n := if StartsWithCrlf(s) then 2 else 1;
      NormalizingKeepsBareDots(s[n..]);
      BareDotStep(s, n);
      var t := Normalize(s);
      if StartsWithCrlf(s) || s[0] == '\n' {
        BareDotStep(t, 2);
        assert t[2..] == Normalize(s[n..]);
      } else {
        BareDotStep(t, 1);
        assert t[1..] == Normalize(s[1..]);
      }
    }
  }

  /** Un-stuffing undoes the encoding exactly when no period directly follows a bare
      carriage return, U+2028 or U+2029. */
  lemma UnstuffingUndoesExactly(body: string, rest: string)
    ensures Receive(EncodeBody(body) + TERMINATOR + rest, true) == Received(Normalize(body) + CRLF, rest)
            <==> !HasBareDot(body)
  {
    ReceiverReads(body, rest);
    NormalizedIsCrlf(body);
    DoubledLength(Normalize(body), true, true);
    NormalizingKeepsBareDots(body);
    var d, t := BareDotsDoubled(Normalize(body), true, true), Normalize(body);
    if d + CRLF == t + CRLF { assert d == (d + CRLF)[..|d|] && |d| == |t|; }
  }

  /** The receiver of the body of a bare carriage return and a period reads two
      periods. */
  lemma BareDotIsDoubled()
    ensures Receive(EncodeBody("\r.") + TERMINATOR, true) == Received("\r.." + CRLF, "")
  {
    var body := "\r.";
    ReceiverReads(body, "");
    assert EncodeBody(body) + TERMINATOR + "" == EncodeBody(body) + TERMINATOR;
    assert body[1..] == "." && body[1..][1..] == "";
    assert Normalize(".") == "." && Normalize(body) == body;
    assert BareDotsDoubled(".", true, false) == "..";
    assert BareDotsDoubled(body, true, true) == "\r" + "..";
  }

  /** A line of the encoded text, as the receiver sees lines, starts at `i`. */
  predicate LineStart(s: string, i: nat) {
    i == 0 || (2 <= i <= |s| && s[i - 2] == '\r' && s[i - 1] == '\n')
  }

  lemma {:induction false} StuffedDots(s: string, atStart: bool, i: nat)
    requires i < |Stuff(s, atStart)| && Stuff(s, atStart)[i] == '.'
    requires if i == 0 then atStart else EndsLine(Stuff(s, atStart)[i - 1])
    ensures i + 1 < |Stuff(s, atStart)| && Stuff(s, atStart)[i + 1] == '.'
  {
    var n := if atStart && s[0] == '.' then 2 else 1;
    if i >= n {
      StuffHead(s[1..], EndsLine(s[0]));
      assert Stuff(s, atStart)[n..] == Stuff(s[1..], EndsLine(s[0]));
      StuffedDots(s[1..], EndsLine(s[0]), i - n);
    }
  }

  /** No line of an encoded text is a lone period: a leading one is always doubled. */
  lemma NoLoneDot(body: string, i: nat)
    requires i < |EncodeBody(body)| && LineStart(EncodeBody(body), i) && EncodeBody(body)[i] == '.'
    ensures i + 1 < |EncodeBody(body)| && EncodeBody(body)[i + 1] == '.'
  {
    StuffedDots(Normalize(body), true, i);
  }
}
