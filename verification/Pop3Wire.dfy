/** The POP3 wire codec (pop3.py, `_Pop3Wire`): multi-line responses as in section 3 of RFC 1939, read
    from a socket that delivers the stream in pieces of any size. */
module Pop3Wire {
  import opened Base

  const CR: byte := 13
  const LF: byte := 10
  const DOT: byte := 46
  const CRLF: Bytes := [CR, LF]
  const TERMINATOR: Bytes := [DOT, CR, LF]
  const OK: Bytes := [43, 79, 75]

  // --- What a stream says, however it arrives ---

  predicate BreakAt(s: Bytes, k: int) {
    0 <= k < |s| - 1 && s[k] == CR && s[k + 1] == LF
  }

  /** The first CRLF at or after `from`. */
  function Break(s: Bytes, from: nat): (k: Option<nat>)
    ensures k.Some? ==> from <= k.value && BreakAt(s, k.value) && forall j :: from <= j < k.value ==> !BreakAt(s, j)
    ensures k.None? ==> forall j :: from <= j ==> !BreakAt(s, j)
    decreases |s| - from
  {
    if from + 1 >= |s| then None
    else if BreakAt(s, from) then Some(from)
    else Break(s, from + 1)
  }

  /** A wire line with its CRLF, and what follows it. */
  datatype Line = Line(text: Bytes, rest: Bytes)

  function FirstLine(s: Bytes): (r: Option<Line>)
    ensures r.Some? ==> |r.value.text| >= 2 && r.value.text + r.value.rest == s
  {
    var k := Break(s, 0);
    if k.None? then None else Some(Line(s[..k.value + 2], s[k.value + 2..]))
  }

  /** A decoded response body, and what follows its terminator. */
  datatype Body = Body(bytes: Bytes, rest: Bytes)

  function Unstuffed(line: Bytes): Bytes {
    if |line| >= 2 && line[0] == DOT && line[1] == DOT then line[1..] else line
  }

  function Decode(s: Bytes): Option<Body>
    decreases |s|
  {
    var line := FirstLine(s);
    if line.None? then None
    else if line.value.text == TERMINATOR then Some(Body([], line.value.rest))
    else Prepend(Unstuffed(line.value.text), Decode(line.value.rest))
  }

  function Prepend(bytes: Bytes, body: Option<Body>): Option<Body> {
    if body.None? then None else Some(Body(bytes + body.value.bytes, body.value.rest))
  }

  /** A response: its status line, and for an accepted multi-line command its body. */
  datatype Reply<+T> = Got(value: T) | Rejected | Closed | Forbidden

  predicate Positive(line: Bytes) {
    OK <= line
  }

  function Response(s: Bytes): Reply<Body> {
    var status := FirstLine(s);
    if status.None? then Closed
    else if !Positive(status.value.text) then Rejected
    else
      var body := Decode(status.value.rest);
      if body.None? then Closed else Got(body.value)
  }

  // --- Sending: the encoder a compliant server uses ---

  /** The contents of a line: anything without a CRLF in it. */
  predicate Text(line: Bytes) {
    Break(line, 0).None?
  }

  function Stuffed(line: Bytes): Bytes {
    if |line| > 0 && line[0] == DOT then [DOT] + line else line
  }

  function Encode(lines: seq<Bytes>): Bytes {
    if lines == [] then TERMINATOR else Stuffed(lines[0]) + CRLF + Encode(lines[1..])
  }

  /** The message itself: its lines, each with its CRLF. */
  function Message(lines: seq<Bytes>): Bytes {
    if lines == [] then [] else lines[0] + CRLF + Message(lines[1..])
  }

  lemma {:induction false} FirstLineIs(text: Bytes, tail: Bytes)
    requires Text(text)
    ensures FirstLine(text + CRLF + tail) == Some(Line(text + CRLF, tail))
  {
    var s, n := text + CRLF + tail, |text|;
    assert BreakAt(s, n);
    forall j | 0 <= j < n ensures !BreakAt(s, j) {
      if j + 1 < n { assert !BreakAt(text, j); }
    }
    assert s[..n + 2] == text + CRLF && s[n + 2..] == tail;
  }

  lemma {:induction false} StuffedIsText(line: Bytes)
    requires Text(line)
    ensures Text(Stuffed(line))
  {
    forall j | 0 <= j ensures !BreakAt(Stuffed(line), j) {
      if Stuffed(line) != line && j > 0 { assert !BreakAt(line, j - 1); }
    }
  }

  /** A stuffed line is never mistaken for the terminator, and unstuffing restores it. */
  lemma {:induction false} StuffedLine(line: Bytes)
    ensures Stuffed(line) + CRLF != TERMINATOR && Unstuffed(Stuffed(line) + CRLF) == line + CRLF
  {
  }

  /** One sent line is decoded as it was, whatever follows. */
  lemma {:induction false} DecodeLine(line: Bytes, more: Bytes)
    requires Text(line)
    ensures Decode(Stuffed(line) + CRLF + more) == Prepend(line + CRLF, Decode(more))
  {
    StuffedIsText(line);
    FirstLineIs(Stuffed(line), more);
    StuffedLine(line);
  }

  lemma {:induction false} DecodeTerminator(tail: Bytes)
    ensures Decode(TERMINATOR + tail) == Some(Body([], tail))
  {
    FirstLineIs([DOT], tail);
    assert TERMINATOR + tail == [DOT] + CRLF + tail;
  }

  /** Round trip: whatever lines are sent, with dots and bare carriage returns or line feeds anywhere,
      decoding returns exactly the message and leaves exactly what followed. */
  lemma {:induction false} DecodeEncode(lines: seq<Bytes>, tail: Bytes)
    requires forall line :: line in lines ==> Text(line)
    ensures Decode(Encode(lines) + tail) == Some(Body(Message(lines), tail))
  {
    if lines == [] {
      DecodeTerminator(tail);
    } else {
      var line, more := lines[0], Encode(lines[1..]) + tail;
      assert Encode(lines) + tail == Stuffed(line) + CRLF + more;
      DecodeLine(line, more);
      DecodeEncode(lines[1..], tail);
    }
  }

  /** The wire lines of a complete response, before its terminator. */
  function WireLines(s: Bytes): seq<Bytes>
    requires Decode(s).Some?
    decreases |s|
  {
    var line := FirstLine(s).value;
    if line.text == TERMINATOR then [] else [line.text[..|line.text| - 2]] + WireLines(line.rest)
  }

  /** The contents of the decoded lines. */
  function Contents(wire: seq<Bytes>): seq<Bytes> {
    if wire == [] then [] else [Unstuffed(wire[0])] + Contents(wire[1..])
  }

  /** Stuffed as the standard demands: no line starts with a dot that is not doubled. */
  predicate ProperlyStuffed(wire: seq<Bytes>) {
    forall line :: line in wire ==> |line| > 0 && line[0] == DOT ==> |line| > 1 && line[1] == DOT
  }

  lemma {:induction false} FirstLineEnds(s: Bytes)
    requires FirstLine(s).Some?
    ensures var t := FirstLine(s).value.text;
            t[..|t| - 2] + CRLF == t && Text(t[..|t| - 2])
  {
    var k := Break(s, 0).value;
    var t := FirstLine(s).value.text;
    var raw := t[..|t| - 2];
    assert raw + CRLF == t;
    forall j | 0 <= j ensures !BreakAt(raw, j) {
      if j < k { assert !BreakAt(s, j); }
    }
  }

  /** One line more in front: encoding reproduces the stream exactly if the line was properly stuffed and
      the rest is reproduced. */
  lemma {:induction false} EncodeFirst(raw: Bytes, following: Bytes, more: seq<Bytes>, rest: Bytes)
    requires raw + CRLF != TERMINATOR
    ensures Encode([Unstuffed(raw)] + more) + rest == raw + CRLF + following <==>
            ProperlyStuffed([raw]) && Encode(more) + rest == following
  {
    var line, lines := Unstuffed(raw), [Unstuffed(raw)] + more;
    assert lines[1..] == more;
    assert Encode(lines) + rest == Stuffed(line) + CRLF + (Encode(more) + rest);
    UnstuffedLine(raw);
    if ProperlyStuffed([raw]) {
      SameTail(raw + CRLF, Encode(more) + rest, following);
    } else {
      LongerLine(raw + CRLF + following, raw, following, Encode(more) + rest);
    }
  }

  lemma {:induction false} ProperlyStuffedFirst(raw: Bytes, more: seq<Bytes>)
    ensures ProperlyStuffed([raw] + more) <==> ProperlyStuffed([raw]) && ProperlyStuffed(more)
  {
    assert forall l :: l in [raw] + more <==> l in [raw] || l in more;
  }

  /** Decoding any complete stream yields whole lines, and encoding them again gives the stream back if
      and only if no line of it started with an undoubled dot. */
  lemma {:induction false} EncodeDecode(s: Bytes)
    requires Decode(s).Some?
    ensures var lines := Contents(WireLines(s));
            && Decode(s).value.bytes == Message(lines)
            && (Encode(lines) + Decode(s).value.rest == s <==> ProperlyStuffed(WireLines(s)))
    decreases |s|
  {
    var first := FirstLine(s).value;
    if first.text == TERMINATOR {
      assert s == TERMINATOR + first.rest;
    } else {
      var raw, more := first.text[..|first.text| - 2], WireLines(first.rest);
      FirstLineEnds(s);
      EncodeDecode(first.rest);
      UnstuffedLine(raw);
      ContentsFirst(raw, more);
      EncodeFirst(raw, first.rest, Contents(more), Decode(s).value.rest);
      ProperlyStuffedFirst(raw, more);
    }
  }

  lemma {:induction false} ContentsFirst(raw: Bytes, more: seq<Bytes>)
    ensures Contents([raw] + more) == [Unstuffed(raw)] + Contents(more)
    ensures Message([Unstuffed(raw)] + Contents(more)) == Unstuffed(raw) + CRLF + Message(Contents(more))
  {
    assert ([raw] + more)[1..] == more && ([Unstuffed(raw)] + Contents(more))[1..] == Contents(more);
  }

  /** Unstuffing a line commutes with its CRLF unless the line is a lone dot, and stuffing undoes it
      exactly for properly stuffed lines. */
  lemma {:induction false} UnstuffedLine(raw: Bytes)
    requires raw + CRLF != TERMINATOR
    ensures Unstuffed(raw + CRLF) == Unstuffed(raw) + CRLF
    ensures ProperlyStuffed([raw]) ==> Stuffed(Unstuffed(raw)) == raw
    ensures !ProperlyStuffed([raw]) ==> Stuffed(Unstuffed(raw)) == [DOT] + raw && |raw| > 1 && raw[0] == DOT && raw[1] != DOT
  {
  }

  lemma {:induction false} SameTail(head: Bytes, a: Bytes, b: Bytes)
    ensures head + a == head + b <==> a == b
  {
    if head + a == head + b {
      assert a == (head + a)[|head|..] && b == (head + b)[|head|..];
    }
  }

  /** A doubled dot where the stream had a single one. */
  lemma {:induction false} LongerLine(s: Bytes, raw: Bytes, rest: Bytes, other: Bytes)
    requires s == raw + CRLF + rest && |raw| > 1 && raw[0] == DOT && raw[1] != DOT
    ensures [DOT] + raw + CRLF + other != s
  {
    assert ([DOT] + raw + CRLF + other)[1] == DOT && s[1] == raw[1];
  }

  // --- Reading it from a socket ---

  function Flatten(chunks: seq<Bytes>): Bytes {
    if chunks == [] then [] else chunks[0] + Flatten(chunks[1..])
  }

  /** A line break found in what has arrived is the first one of the whole stream. */
  lemma {:induction false} BreakIsStable(s: Bytes, more: Bytes, from: nat)
    requires Break(s, from).Some?
    ensures Break(s + more, from) == Break(s, from)
  {
    var k := Break(s, from).value;
    assert BreakAt(s + more, k);
    forall j | from <= j < k ensures !BreakAt(s + more, j) { assert !BreakAt(s, j); }
  }

  function Upper(c: char): char {
    if 'a' <= c <= 'z' then c - 'a' + 'A' else c
  }

  function Verb(command: string): string {
    if command == "" || command[0] == ' ' then "" else [Upper(command[0])] + Verb(command[1..])
  }

  /** The verb is DELE exactly if the command spells it, in whatever case, up to its end or its first space. */
  lemma {:induction false} DeleIsRecognized(command: string)
    ensures Verb(command) == "DELE" <==>
            && |command| >= 4 && command[0] in {'D', 'd'} && command[1] in {'E', 'e'} && command[2] in {'L', 'l'} && command[3] in {'E', 'e'}
            && (|command| == 4 || command[4] == ' ')
  {
    VerbIs(command);
    if |command| >= 4 && command[0] in {'D', 'd'} && command[1] in {'E', 'e'} && command[2] in {'L', 'l'} && command[3] in {'E', 'e'}
       && (|command| == 4 || command[4] == ' ') {
      assert |Verb(command)| == 4;
    }
  }

  /** A verb is what precedes the first space, in upper case. */
  lemma {:induction false} VerbIs(command: string)
    ensures var verb := Verb(command);
            && |verb| <= |command| && (|verb| < |command| ==> command[|verb|] == ' ')
            && forall i :: 0 <= i < |verb| ==>
                 command[i] != ' ' && verb[i] == if 'a' <= command[i] <= 'z' then command[i] - 'a' + 'A' else command[i]
  {
    if command != "" && command[0] != ' ' {
      VerbIs(command[1..]);
    }
  }

  class Wire {
    var buffer: Bytes
    /** What the socket will still deliver, piece by piece; no piece is empty, and an empty one would
        mean that the peer has closed. */
    var incoming: seq<Bytes>
    /** Verbs sent. */
    var commands: seq<string>

    ghost predicate Valid()
      reads this
    {
      [] !in incoming
    }

    ghost function Stream(): Bytes
      reads this
    {
      buffer + Flatten(incoming)
    }

    constructor (incoming: seq<Bytes>)
      requires [] !in incoming
      ensures Valid() && Stream() == Flatten(incoming) && commands == []
    {
      this.buffer, this.incoming, this.commands := [], incoming, [];
    }

    /** At most one receive: what is still to come moves into the buffer, or the peer has closed. */
    method Receive() returns (data: Bytes)
      requires Valid()
      modifies this`incoming
      ensures Valid()
      ensures if old(incoming) == [] then data == [] && incoming == [] else data != [] && old(incoming) == [data] + incoming
    {
      if incoming == [] {
        data := [];
      } else {
        data, incoming := incoming[0], incoming[1..];
      }
    }

    /** One wire line.  The answer depends only on the stream, not on how it is cut into pieces. */
    method ReadWireLine() returns (line: Option<Bytes>)
      requires Valid()
      modifies this`buffer, this`incoming
      ensures Valid()
      ensures match FirstLine(old(Stream()))
              case None => line == None && Stream() == old(Stream()) && incoming == []
              case Some(first) => line == Some(first.text) && Stream() == first.rest
    {
      while Break(buffer, 0).None?
        invariant Valid() && Stream() == old(Stream())
        decreases |incoming|
      {
        ghost var before, pending := buffer, incoming;
        var data := Receive();
        if data == [] {
          assert buffer + [] == buffer;
          return None;
        }
        buffer := buffer + data;
        assert pending[1..] == incoming;
        assert before + (data + Flatten(incoming)) == (before + data) + Flatten(incoming);
      }
      BreakIsStable(buffer, Flatten(incoming), 0);
      var k := Break(buffer, 0).value;
      ghost var stream := Stream();
      line := Some(buffer[..k + 2]);
      buffer := buffer[k + 2..];
      assert stream[..k + 2] == line.value && stream[k + 2..] == buffer + Flatten(incoming);
    }

    /** Sends one read-only command and reads its status line. */
    method Command(command: string) returns (r: Reply<Bytes>)
      requires Valid()
      modifies this
      ensures Valid()
      ensures Verb(command) == "DELE" || '\r' in command || '\n' in command <==> r.Forbidden?
      ensures commands == if r.Forbidden? then old(commands) else old(commands) + [Verb(command)]
      ensures r.Forbidden? ==> Stream() == old(Stream())
      ensures !r.Forbidden? ==>
                match FirstLine(old(Stream()))
                case None => r == Closed && Stream() == old(Stream())
                case Some(first) => Stream() == first.rest && r == if Positive(first.text) then Got(first.text[3..]) else Rejected
    {
      if Verb(command) == "DELE" { return Forbidden; }
      if '\r' in command || '\n' in command { return Forbidden; }
      commands := commands + [Verb(command)];
      var line := ReadWireLine();
      if line.None? { return Closed; }
      r := if Positive(line.value) then Got(line.value[3..]) else Rejected;
    }

    /** One multi-line response: exactly the decoding of the stream, and what followed the terminator is
        still there, in the buffer or unread. */
    method Multiline(command: string) returns (r: Reply<Bytes>)
      requires Valid()
      modifies this
      ensures Valid()
      ensures r.Forbidden? <==> Verb(command) == "DELE" || '\r' in command || '\n' in command
      ensures commands == if r.Forbidden? then old(commands) else old(commands) + [Verb(command)]
      ensures !r.Forbidden? ==>
                match Response(old(Stream()))
                case Got(body) => r == Got(body.bytes) && Stream() == body.rest
                case Rejected => r == Rejected
                case _ => r == Closed
    {
      var status := Command(command);
      if !status.Got? { return if status.Forbidden? then Forbidden else if status.Rejected? then Rejected else Closed; }
      r := ReadBody();
    }

    /** The lines up to the terminator, unstuffed. */
    method ReadBody() returns (r: Reply<Bytes>)
      requires Valid()
      modifies this`buffer, this`incoming
      ensures Valid()
      ensures match Decode(old(Stream()))
              case None => r == Closed
              case Some(body) => r == Got(body.bytes) && Stream() == body.rest
    {
      ghost var start := Decode(Stream());
      var result: Bytes := [];
      PrependNothing(start);
      while true
        invariant Valid() && start == Prepend(result, Decode(Stream()))
        decreases |Stream()|
      {
        var line := ReadWireLine();
        if line.None? { return Closed; }
        if line.value == TERMINATOR {
          assert result + [] == result;
          return Got(result);
        }
        PrependTwice(result, Unstuffed(line.value), Decode(Stream()));
        result := result + Unstuffed(line.value);
      }
    }

    static lemma {:induction false} PrependNothing(body: Option<Body>)
      ensures Prepend([], body) == body
    {
      if body.Some? { assert [] + body.value.bytes == body.value.bytes; }
    }

    static lemma {:induction false} PrependTwice(a: Bytes, b: Bytes, body: Option<Body>)
      ensures Prepend(a, Prepend(b, body)) == Prepend(a + b, body)
    {
      if body.Some? { assert a + (b + body.value.bytes) == (a + b) + body.value.bytes; }
    }
  }

  /** Two connections that carry the same stream, cut into pieces in different ways and with different
      amounts already buffered, return the same bytes and leave the same remainder. */
  method FragmentationDoesNotMatter(one: Wire, two: Wire, command: string) returns (a: Reply<Bytes>, b: Reply<Bytes>)
    requires one != two && one.Valid() && two.Valid() && one.Stream() == two.Stream()
    modifies one, two
    ensures a == b && (a.Got? ==> one.Stream() == two.Stream())
  {
    a := one.Multiline(command);
    b := two.Multiline(command);
  }

  /** What a compliant server sends comes back unchanged, whatever follows and however it is cut up. */
  method Retrieve(wire: Wire, command: string, status: Bytes, lines: seq<Bytes>, tail: Bytes) returns (r: Reply<Bytes>)
    requires wire.Valid() && Verb(command) != "DELE" && '\r' !in command && '\n' !in command
    requires Text(status) && Positive(status) && forall line :: line in lines ==> Text(line)
    requires wire.Stream() == status + CRLF + (Encode(lines) + tail)
    modifies wire
    ensures r == Got(Message(lines)) && wire.Stream() == tail
  {
    FirstLineIs(status, Encode(lines) + tail);
    DecodeEncode(lines, tail);
    assert Positive(status + CRLF);
    r := wire.Multiline(command);
  }
}
