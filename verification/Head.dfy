/** Reading a connection's head within fixed limits: lines, refusals and what is left for the body depend on the bytes
    alone, never on how the socket splits them. */
module Head {
  import opened Wrappers
  import opened Bytes

  const END_OF_HEAD: seq<Byte> := [CR, LF]

  const MAX_REQUEST_LINE := 8192
  const MAX_HEADER_BLOCK := 16384

  // ---------------------------------------------------------------- lines of a stream

  /** Where the first line ends, just past its line feed; 0 when no line ends. */
  function LineEnd(s: seq<Byte>): (end: nat)
    ensures end <= |s|
    ensures end > 0 ==> s[end - 1] == LF && forall k | 0 <= k < end - 1 :: s[k] != LF
    ensures end == 0 ==> LF !in s
  {
    if s == [] then 0
    else if s[0] == LF then 1
    else
      var rest := LineEnd(s[1..]);
      if rest == 0 then 0 else rest + 1
  }

  lemma {:induction false} LineEndIs(s: seq<Byte>, end: nat)
    requires 0 < end <= |s| && s[end - 1] == LF && forall k | 0 <= k < end - 1 :: s[k] != LF
    ensures LineEnd(s) == end
  {
    if end > 1 {
      LineEndIs(s[1..], end - 1);
    }
  }

  function Least(a: nat, b: nat): nat {
    if a <= b then a else b
  }

  /** The length of what one read of a line takes: a whole line, or what the limit or the end of the stream cuts off. */
  function LineLength(s: seq<Byte>, limit: Option<nat>): (length: nat)
    ensures length <= |s|
    ensures limit.Some? ==> length <= limit.value
  {
    var end := LineEnd(s);
    if limit.None? then if end > 0 then end else |s|
    else if 0 < end <= limit.value then end
    else Least(limit.value, |s|)
  }

  function Line(s: seq<Byte>, limit: Option<nat>): seq<Byte> {
    s[..LineLength(s, limit)]
  }

  // ---------------------------------------------------------------- the shape of a head

  predicate EndsInCrLf(line: seq<Byte>) {
    |line| >= 2 && line[|line| - 2] == CR && line[|line| - 1] == LF
  }

  predicate EndsInLf(line: seq<Byte>) {
    |line| >= 1 && line[|line| - 1] == LF
  }

  /** A line without its one line end. */
  function Content(line: seq<Byte>): seq<Byte> {
    if EndsInCrLf(line) then line[..|line| - 2]
    else if EndsInLf(line) then line[..|line| - 1]
    else line
  }

  predicate Printable(s: seq<Byte>) {
    forall k | 0 <= k < |s| :: 32 <= s[k] <= 126
  }

  /** The characters of a field name: a token of section 5.6.2 of RFC 9110. */
  predicate TokenByte(b: Byte) {
    || 48 <= b <= 57 || 65 <= b <= 90 || 97 <= b <= 122
    || b in {33, 35, 36, 37, 38, 39, 42, 43, 45, 46, 94, 95, 96, 124, 126}
  }

  /** The characters of a field value: section 5 of RFC 9112. */
  predicate ValueByte(b: Byte) {
    b == 9 || 32 <= b <= 126 || 128 <= b
  }

  predicate Value(s: seq<Byte>) {
    forall k | 0 <= k < |s| :: ValueByte(s[k])
  }

  /** A name, a colon and a value. */
  predicate Field(s: seq<Byte>) {
    s != [] && TokenByte(s[0]) && FieldRest(s[1..])
  }

  predicate FieldRest(s: seq<Byte>) {
    s != [] && if s[0] == COLON then Value(s[1..]) else TokenByte(s[0]) && FieldRest(s[1..])
  }

  predicate FieldLine(line: seq<Byte>) {
    EndsInCrLf(line) && Field(Content(line))
  }

  datatype Refusal = TooLarge | Bad

  /** The request line, read a little past its limit. */
  function RequestLine(s: seq<Byte>): Result<seq<Byte>, Refusal> {
    var line := Line(s, Some(MAX_REQUEST_LINE + 3));
    if |Content(line)| > MAX_REQUEST_LINE then Err(TooLarge)
    else if line != [] && (!EndsInCrLf(line) || !Printable(Content(line))) then Err(Bad)
    else Ok(line)
  }

  /** The next line of a header block that may still take so many bytes. */
  function HeaderLine(s: seq<Byte>, left: nat): Result<seq<Byte>, Refusal> {
    var line := Line(s, Some(left + 3));
    if line == END_OF_HEAD then Ok(line)
    else if |line| > left then Err(TooLarge)
    else if !FieldLine(line) then Err(Bad)
    else Ok(line)
  }

  /** The header lines up to the empty one, and what follows it. */
  function HeaderBlock(s: seq<Byte>, left: nat): Result<(seq<seq<Byte>>, seq<Byte>), Refusal>
    decreases |s|
  {
    var line := HeaderLine(s, left);
    if line.Err? then Err(line.error)
    else if line.value == END_OF_HEAD then Ok(([], s[|line.value|..]))
    else
      var rest := HeaderBlock(s[|line.value|..], left - |line.value|);
      if rest.Err? then Err(rest.error) else Ok(([line.value] + rest.value.0, rest.value.1))
  }

  datatype Outcome = Nothing | Refused(why: Refusal) | Accepted(request: seq<Byte>, headers: seq<seq<Byte>>)

  /** What becomes of a stream, a function of its bytes alone, and the body that follows an accepted head. */
  function ParseHead(s: seq<Byte>): (Outcome, seq<Byte>) {
    var request := RequestLine(s);
    if request.Err? then (Refused(request.error), [])
    else if request.value == [] then (Nothing, [])
    else
      var block := HeaderBlock(s[|request.value|..], MAX_HEADER_BLOCK);
      if block.Err? then (Refused(block.error), []) else (Accepted(request.value, block.value.0), block.value.1)
  }

  // ---------------------------------------------------------------- exactly the heads accepted

  function Joined(lines: seq<seq<Byte>>): seq<Byte> {
    if lines == [] then [] else lines[0] + Joined(lines[1..])
  }

  predicate GoodRequest(request: seq<Byte>) {
    EndsInCrLf(request) && Printable(Content(request)) && |Content(request)| <= MAX_REQUEST_LINE
  }

  predicate GoodHeaders(headers: seq<seq<Byte>>, left: nat) {
    |Joined(headers)| <= left && forall k | 0 <= k < |headers| :: FieldLine(headers[k])
  }

  // ---------------------------------------------------------------- the lines, spelled out

  /** A visible character of ASCII, or the space. */
  predicate Plain(b: Byte) {
    ' ' <= b as char <= '~'
  }

  predicate NameByte(b: Byte) {
    var c := b as char;
    'a' <= c <= 'z' || 'A' <= c <= 'Z' || '0' <= c <= '9' || c in "!#$%&'*+-.^_`|~"
  }

  predicate Name(s: seq<Byte>) {
    s != [] && forall k | 0 <= k < |s| :: NameByte(s[k])
  }

  /** No control character but the tab. */
  predicate Text(s: seq<Byte>) {
    forall k | 0 <= k < |s| :: s[k] as char == '\t' || !(s[k] < 32 || s[k] == 127)
  }

  /** A good request line is at most 8192 plain characters and a line end. */
  lemma RequestIs(line: seq<Byte>)
    ensures GoodRequest(line) <==>
            exists content: seq<Byte> :: line == content + [13, 10] && |content| <= 8192 && forall k | 0 <= k < |content| :: Plain(content[k])
  {
    if GoodRequest(line) {
      assert line == Content(line) + [13, 10];
    }
    if content: seq<Byte> :| line == content + [13, 10] && |content| <= 8192 && forall k | 0 <= k < |content| :: Plain(content[k]) {
      assert Content(line) == content;
    }
  }

  /** A good header line is a name, a colon, a text and a line end. */
  lemma FieldLineIs(line: seq<Byte>)
    ensures FieldLine(line) <==>
            exists name, text :: Name(name) && Text(text) && line == name + ([58] + text) + [13, 10]
  {
    hide Field, Name, Text;
    if FieldLine(line) {
      var name, text := FieldParts(Content(line));
      assert line == Content(line) + [13, 10];
    }
    if name, text :| Name(name) && Text(text) && line == name + ([58] + text) + [13, 10] {
      assert Content(line) == name + ([58] + text);
      PartsField(name, text);
    }
  }

  lemma FieldParts(s: seq<Byte>) returns (name: seq<Byte>, text: seq<Byte>)
    requires Field(s)
    ensures Name(name) && Text(text) && s == name + ([58] + text)
  {
    var rest;
    rest, text := RestParts(s[1..]);
    name := [s[0]] + rest;
    assert s == name + ([58] + text);
  }

  lemma {:induction false} RestParts(s: seq<Byte>) returns (rest: seq<Byte>, text: seq<Byte>)
    requires FieldRest(s)
    ensures (forall k | 0 <= k < |rest| :: NameByte(rest[k])) && Text(text) && s == rest + ([58] + text)
  {
    if s[0] == COLON {
      rest, text := [], s[1..];
    } else {
      rest, text := RestParts(s[1..]);
      assert s == [s[0]] + rest + ([58] + text);
      rest := [s[0]] + rest;
    }
  }

  lemma PartsField(name: seq<Byte>, text: seq<Byte>)
    requires Name(name) && Text(text)
    ensures Field(name + ([58] + text))
  {
    var s := name + ([58] + text);
    assert s[1..] == name[1..] + ([58] + text);
    PartsRest(name[1..], text);
  }

  lemma {:induction false} PartsRest(rest: seq<Byte>, text: seq<Byte>)
    requires (forall k | 0 <= k < |rest| :: NameByte(rest[k])) && Text(text)
    ensures FieldRest(rest + ([58] + text))
  {
    hide NameByte, TokenByte, Text, Value;
    var s := rest + ([58] + text);
    if rest == [] {
      assert s == [58] + text && s[1..] == text;
      TextIsValue(text);
    } else {
      assert s[1..] == rest[1..] + ([58] + text);
      NameIsToken(rest[0]);
      PartsRest(rest[1..], text);
    }
  }

  lemma NameIsToken(b: Byte)
    ensures NameByte(b) ==> TokenByte(b) && b != COLON
  {
  }

  lemma TextIsValue(s: seq<Byte>)
    requires Text(s)
    ensures Value(s)
  {
  }

  lemma {:induction false} FieldRestBytes(s: seq<Byte>)
    requires FieldRest(s)
    ensures forall k | 0 <= k < |s| :: s[k] != LF && s[k] != CR
  {
    if s[0] != COLON {
      FieldRestBytes(s[1..]);
      assert s == [s[0]] + s[1..];
    } else {
      assert forall k | 1 <= k < |s| :: s[k] == s[1..][k - 1];
    }
  }

  lemma FieldBytes(s: seq<Byte>)
    requires Field(s)
    ensures forall k | 0 <= k < |s| :: s[k] != LF && s[k] != CR
  {
    FieldRestBytes(s[1..]);
    assert s == [s[0]] + s[1..];
  }

  /** A line with no line feed inside is what a read takes, when the limit lets it. */
  lemma WholeLine(line: seq<Byte>, rest: seq<Byte>, limit: nat)
    requires EndsInCrLf(line) && LF !in Content(line) && |line| <= limit
    ensures Line(line + rest, Some(limit)) == line
  {
    var s := line + rest;
    forall k | 0 <= k < |line| - 1 ensures s[k] != LF {
      if k < |line| - 2 {
        assert s[k] == Content(line)[k];
      }
    }
    LineEndIs(s, |line|);
  }

  lemma FieldLineWhole(line: seq<Byte>)
    requires FieldLine(line)
    ensures LF !in Content(line) && line != END_OF_HEAD && |line| > 2
  {
    FieldBytes(Content(line));
  }

  /** A header line that fits is read whole. */
  lemma HeaderRead(line: seq<Byte>, rest: seq<Byte>, left: nat)
    requires FieldLine(line) && |line| <= left
    ensures HeaderLine(line + rest, left) == Ok(line) && line != END_OF_HEAD && (line + rest)[|line|..] == rest
  {
    hide Field;
    FieldLineWhole(line);
    WholeLine(line, rest, left + 3);
  }

  lemma EndRead(rest: seq<Byte>, left: nat)
    ensures HeaderLine(END_OF_HEAD + rest, left) == Ok(END_OF_HEAD) && (END_OF_HEAD + rest)[|END_OF_HEAD|..] == rest
  {
    WholeLine(END_OF_HEAD, rest, left + 3);
  }

  lemma HeaderShape(s: seq<Byte>, left: nat)
    requires HeaderLine(s, left).Ok?
    ensures var line := HeaderLine(s, left).value;
            && |line| <= |s| && s == line + s[|line|..]
            && (line == END_OF_HEAD || (FieldLine(line) && |line| <= left))
  {
  }

  lemma {:induction false} HeadersAccepted(headers: seq<seq<Byte>>, body: seq<Byte>, left: nat)
    requires GoodHeaders(headers, left)
    ensures HeaderBlock(Joined(headers) + END_OF_HEAD + body, left) == Ok((headers, body))
  {
    hide HeaderLine, FieldLine;
    var s := Joined(headers) + END_OF_HEAD + body;
    if headers == [] {
      assert s == END_OF_HEAD + body;
      EndRead(body, left);
    } else {
      var line, rest := headers[0], Joined(headers[1..]) + END_OF_HEAD + body;
      assert s == line + rest;
      HeaderRead(line, rest, left);
      HeadersAccepted(headers[1..], body, left - |line|);
      assert [line] + headers[1..] == headers;
    }
  }

  lemma Prepend(line: seq<Byte>, headers: seq<seq<Byte>>, body: seq<Byte>)
    ensures line + (Joined(headers) + END_OF_HEAD + body) == Joined([line] + headers) + END_OF_HEAD + body
    ensures |Joined([line] + headers)| == |line| + |Joined(headers)|
  {
    assert ([line] + headers)[1..] == headers;
  }

  lemma {:induction false} HeadersShape(s: seq<Byte>, left: nat)
    requires HeaderBlock(s, left).Ok?
    ensures var (headers, body) := HeaderBlock(s, left).value;
            GoodHeaders(headers, left) && s == Joined(headers) + END_OF_HEAD + body
    decreases |s|
  {
    hide HeaderLine, FieldLine, Joined;
    var line := HeaderLine(s, left).value;
    HeaderShape(s, left);
    var rest := s[|line|..];
    if line == END_OF_HEAD {
      NoneJoined(rest);
    } else {
      HeadersShape(rest, left - |line|);
      var (headers, body) := HeaderBlock(rest, left - |line|).value;
      Prepend(line, headers, body);
    }
  }

  lemma NoneJoined(rest: seq<Byte>)
    ensures |Joined([])| == 0 && END_OF_HEAD + rest == Joined([]) + END_OF_HEAD + rest
  {
  }

  /** A head is accepted exactly when the stream starts with a well-formed request line, well-formed header lines of
      that many bytes at most, and an empty line; and what follows is the body. */
  lemma AcceptedExactly(s: seq<Byte>, request: seq<Byte>, headers: seq<seq<Byte>>, body: seq<Byte>)
    ensures ParseHead(s) == (Accepted(request, headers), body) <==>
            GoodRequest(request) && GoodHeaders(headers, MAX_HEADER_BLOCK)
            && s == request + (Joined(headers) + END_OF_HEAD + body)
  {
    if ParseHead(s) == (Accepted(request, headers), body) {
      assert s == request + s[|request|..];
      HeadersShape(s[|request|..], MAX_HEADER_BLOCK);
    }
    if GoodRequest(request) && GoodHeaders(headers, MAX_HEADER_BLOCK)
       && s == request + (Joined(headers) + END_OF_HEAD + body)
    {
      var rest := Joined(headers) + END_OF_HEAD + body;
      WholeLine(request, rest, MAX_REQUEST_LINE + 3);
      assert s[|request|..] == rest;
      HeadersAccepted(headers, body, MAX_HEADER_BLOCK);
    }
  }

  // ---------------------------------------------------------------- exactly the heads refused

  /** The first line of a stream, with its line feed, or all of a stream in which no line ends. */
  ghost predicate Begins(s: seq<Byte>, line: seq<Byte>) {
    && line <= s && (forall k | 0 <= k < |line| - 1 :: line[k] != LF)
    && (EndsInLf(line) || line == s)
  }

  lemma BeginsIs(s: seq<Byte>, line: seq<Byte>)
    ensures Begins(s, line) <==> line == Line(s, None)
  {
    if Begins(s, line) && EndsInLf(line) {
      LineEndIs(s, |line|);
    }
    if Begins(s, line) && !EndsInLf(line) {
      assert LF !in s;
    }
  }

  /** What is read of a line with a limit is all of it, when that is no longer, and otherwise the limit's worth. */
  lemma ReadOfLine(s: seq<Byte>, line: seq<Byte>, limit: nat)
    requires Begins(s, line)
    ensures Line(s, Some(limit)) == if |line| <= limit then line else s[..limit]
    ensures |line| > limit ==> LF !in s[..limit] && |s[..limit]| == limit
  {
    BeginsIs(s, line);
  }

  /** What is wrong with a request line, told from the whole of it. */
  lemma RequestRefused(s: seq<Byte>, line: seq<Byte>)
    requires Begins(s, line)
    ensures RequestLine(s) == Err(TooLarge) <==> |Content(line)| > 8192
    ensures RequestLine(s) == Err(Bad) <==> s != [] && |Content(line)| <= 8192 && !GoodRequest(line)
    ensures RequestLine(s) == Ok(line) <==> s == [] || GoodRequest(line)
    ensures RequestLine(s).Ok? ==> RequestLine(s).value == line
  {
    ReadOfLine(s, line, MAX_REQUEST_LINE + 3);
    if |line| > MAX_REQUEST_LINE + 3 {
      NoLineEnd(s[..MAX_REQUEST_LINE + 3]);
    }
  }

  lemma NoLineEnd(part: seq<Byte>)
    requires LF !in part
    ensures Content(part) == part
  {
  }

  /** What is wrong with a header line, told from the whole of it. */
  lemma HeaderRefused(s: seq<Byte>, line: seq<Byte>, left: nat)
    requires Begins(s, line)
    ensures HeaderLine(s, left) == Err(TooLarge) <==> line != END_OF_HEAD && |line| > left
    ensures HeaderLine(s, left) == Err(Bad) <==> line != END_OF_HEAD && |line| <= left && !FieldLine(line)
    ensures HeaderLine(s, left).Ok? <==> line == END_OF_HEAD || (|line| <= left && FieldLine(line))
  {
    hide FieldLine;
    ReadOfLine(s, line, left + 3);
  }

  lemma {:induction false} JoinedMore(headers: seq<seq<Byte>>, line: seq<Byte>)
    ensures Joined([line] + headers) == line + Joined(headers) && |Joined([line] + headers)| == |line| + |Joined(headers)|
  {
    assert ([line] + headers)[1..] == headers;
  }

  /** A refused header block is well-formed lines within the budget, and then the line it was refused for. */
  lemma {:induction false} BlockStops(s: seq<Byte>, left: nat) returns (headers: seq<seq<Byte>>, rest: seq<Byte>)
    requires HeaderBlock(s, left).Err?
    ensures GoodHeaders(headers, left) && s == Joined(headers) + rest
    ensures HeaderLine(rest, left - |Joined(headers)|) == Err(HeaderBlock(s, left).error)
    decreases |s|
  {
    hide HeaderLine, FieldLine, Joined;
    var line := HeaderLine(s, left);
    if line.Err? {
      headers, rest := [], s;
      NoneJoined(s);
      NoHeaders(s);
    } else {
      HeaderShape(s, left);
      HeaderShapeIf(s, left);
      var more;
      more, rest := BlockStops(s[|line.value|..], left - |line.value|);
      headers := [line.value] + more;
      JoinedMore(more, line.value);
      assert s == line.value + (Joined(more) + rest);
    }
  }

  lemma NoHeaders(s: seq<Byte>)
    ensures s == Joined([]) + s
  {
  }

  lemma {:induction false} BlockFails(headers: seq<seq<Byte>>, rest: seq<Byte>, left: nat)
    requires GoodHeaders(headers, left) && HeaderLine(rest, left - |Joined(headers)|).Err?
    ensures HeaderBlock(Joined(headers) + rest, left) == Err(HeaderLine(rest, left - |Joined(headers)|).error)
  {
    hide HeaderLine, FieldLine;
    if headers == [] {
      assert Joined(headers) + rest == rest;
    } else {
      var line, after := headers[0], Joined(headers[1..]) + rest;
      assert Joined(headers) + rest == line + after;
      HeaderRead(line, after, left);
      BlockFails(headers[1..], rest, left - |line|);
    }
  }

  /** A good request line and good header lines have been read, and the line to come is the first of the rest. */
  ghost predicate Reaches(s: seq<Byte>, request: seq<Byte>, headers: seq<seq<Byte>>, line: seq<Byte>, rest: seq<Byte>) {
    && GoodRequest(request) && GoodHeaders(headers, 16384) && s == request + (Joined(headers) + rest)
    && Begins(rest, line) && line != END_OF_HEAD
  }

  /** The request line is too long, or after good lines there is one that the budget has no room for. */
  ghost predicate Oversized(s: seq<Byte>) {
    || (exists line :: Begins(s, line) && |Content(line)| > 8192)
    || (exists request, headers, line, rest ::
          Reaches(s, request, headers, line, rest) && |Joined(headers)| + |line| > 16384)
  }

  /** The request line is malformed or cut off, or after good lines there is such a header line, within the limits. */
  ghost predicate Malformed(s: seq<Byte>) {
    || (s != [] && exists line :: Begins(s, line) && |Content(line)| <= 8192 && !GoodRequest(line))
    || (exists request, headers, line, rest ::
          Reaches(s, request, headers, line, rest) && |Joined(headers)| + |line| <= 16384 && !FieldLine(line))
  }

  lemma FirstBegins(s: seq<Byte>) returns (line: seq<Byte>)
    ensures Begins(s, line)
  {
    line := Line(s, None);
    BeginsIs(s, line);
  }

  lemma OneLine(s: seq<Byte>, a: seq<Byte>, b: seq<Byte>)
    requires Begins(s, a) && Begins(s, b)
    ensures a == b
  {
    BeginsIs(s, a);
    BeginsIs(s, b);
  }

  lemma GoodBegins(request: seq<Byte>, rest: seq<Byte>)
    requires GoodRequest(request)
    ensures Begins(request + rest, request) && (request + rest)[|request|..] == rest
  {
    forall k | 0 <= k < |request| - 1 ensures request[k] != LF {
      if k < |request| - 2 {
        assert request[k] == Content(request)[k];
      }
    }
  }

  /** What a stream whose lines read so far are good comes to. */
  lemma ReachedOutcome(s: seq<Byte>, request: seq<Byte>, headers: seq<seq<Byte>>, line: seq<Byte>, rest: seq<Byte>)
    requires Reaches(s, request, headers, line, rest)
    ensures |Joined(headers)| + |line| > 16384 ==> ParseHead(s).0 == Refused(TooLarge)
    ensures |Joined(headers)| + |line| <= 16384 && !FieldLine(line) ==> ParseHead(s).0 == Refused(Bad)
  {
    hide HeaderBlock, HeaderLine, RequestLine, FieldLine, Content, Begins;
    GoodBegins(request, Joined(headers) + rest);
    RequestRefused(s, request);
    HeaderRefused(rest, line, 16384 - |Joined(headers)|);
    assert RequestLine(s) == Ok(request) && request != [] && s[|request|..] == Joined(headers) + rest;
    if HeaderLine(rest, 16384 - |Joined(headers)|).Err? {
      BlockFails(headers, rest, 16384);
    }
  }

  /** A stream is refused for its size exactly when its request line is longer than 8192 bytes, its line end not counted, or
      the header line after good ones does not fit into the 16384 bytes there are for them; as malformed exactly when a
      line within those limits is malformed or cut off; and is nothing exactly when there is none. */
  lemma RefusedExactly(s: seq<Byte>)
    ensures ParseHead(s).0 == Refused(TooLarge) <==> Oversized(s)
    ensures ParseHead(s).0 == Refused(Bad) <==> Malformed(s)
    ensures ParseHead(s).0 == Nothing <==> s == []
  {
    hide HeaderBlock, RequestLine, HeaderLine, FieldLine, Content, Begins, Reaches, GoodRequest;
    var first := FirstBegins(s);
    RequestRefused(s, first);
    if Oversized(s) {
      OversizedRefused(s);
    }
    if Malformed(s) {
      MalformedRefused(s);
    }
    EmptyOutcome(s, first);
    if ParseHead(s).0.Refused? && RequestLine(s).Ok? {
      RefusedAfter(s, first);
    }
  }

  lemma EmptyOutcome(s: seq<Byte>, first: seq<Byte>)
    requires Begins(s, first)
    ensures first == [] <==> s == []
    ensures s == [] ==> RequestLine(s) == Ok([])
  {
  }

  lemma OversizedRefused(s: seq<Byte>)
    requires Oversized(s)
    ensures ParseHead(s).0 == Refused(TooLarge)
  {
    hide HeaderBlock, RequestLine, FieldLine, Content, Begins, Reaches;
    if line :| Begins(s, line) && |Content(line)| > 8192 {
      RequestRefused(s, line);
    } else {
      var request, headers, line, rest :|
        Reaches(s, request, headers, line, rest) && |Joined(headers)| + |line| > 16384;
      ReachedOutcome(s, request, headers, line, rest);
    }
  }

  lemma MalformedRefused(s: seq<Byte>)
    requires Malformed(s)
    ensures ParseHead(s).0 == Refused(Bad)
  {
    hide HeaderBlock, RequestLine, FieldLine, Content, Begins, Reaches, GoodRequest;
    if s != [] && exists line :: Begins(s, line) && |Content(line)| <= 8192 && !GoodRequest(line) {
      var line :| Begins(s, line) && |Content(line)| <= 8192 && !GoodRequest(line);
      RequestRefused(s, line);
    } else {
      var request, headers, line, rest :|
        Reaches(s, request, headers, line, rest) && |Joined(headers)| + |line| <= 16384 && !FieldLine(line);
      ReachedOutcome(s, request, headers, line, rest);
    }
  }

  /** A stream refused after its request line. */
  lemma RefusedAfter(s: seq<Byte>, request: seq<Byte>)
    requires Begins(s, request) && RequestLine(s).Ok? && ParseHead(s).0.Refused?
    ensures ParseHead(s).0 == Refused(TooLarge) ==> Oversized(s)
    ensures ParseHead(s).0 == Refused(Bad) ==> Malformed(s)
  {
    hide HeaderBlock, RequestLine, HeaderLine, FieldLine, Content, Begins;
    RequestRefused(s, request);
    EmptyOutcome(s, request);
    RequestGood(s, request);
    var headers, rest := BlockStops(s[|request|..], 16384);
    var line := FirstBegins(rest);
    HeaderRefused(rest, line, 16384 - |Joined(headers)|);
    assert s == request + (Joined(headers) + rest);
    assert line != END_OF_HEAD;
    assert Reaches(s, request, headers, line, rest);
  }

  lemma RequestGood(s: seq<Byte>, request: seq<Byte>)
    requires Begins(s, request) && RequestLine(s) == Ok(request) && request != []
    ensures GoodRequest(request) && |request| <= |s| && s == request + s[|request|..]
  {
    BeginsIs(s, request);
  }

  // ---------------------------------------------------------------- the socket

  function Flat(pieces: seq<seq<Byte>>): seq<Byte> {
    if pieces == [] then [] else pieces[0] + Flat(pieces[1..])
  }

  /** A connection that hands out its bytes in pieces of its own choosing, and nothing at their end. */
  class Socket {
    var pieces: seq<seq<Byte>>

    ghost predicate Valid()
      reads this
    {
      forall k | 0 <= k < |pieces| :: pieces[k] != []
    }

    ghost function Unread(): seq<Byte>
      reads this
    {
      Flat(pieces)
    }

    constructor (pieces: seq<seq<Byte>>)
      requires forall k | 0 <= k < |pieces| :: pieces[k] != []
      ensures Valid() && Unread() == Flat(pieces)
    {
      this.pieces := pieces;
    }

    method Read1(size: nat) returns (part: seq<Byte>)
      requires Valid() && size > 0
      modifies this
      ensures Valid() && old(Unread()) == part + Unread() && |part| <= size
      ensures part == [] ==> Unread() == []
    {
      if pieces == [] {
        return [];
      }
      var piece, rest := pieces[0], pieces[1..];
      if |piece| <= size {
        part := piece;
        pieces := rest;
      } else {
        part := piece[..size];
        pieces := [piece[size..]] + rest;
        assert pieces[1..] == rest;
        assert piece + Flat(rest) == part + (piece[size..] + Flat(rest));
      }
    }
  }

  // ---------------------------------------------------------------- the reader

  class Head {
    const socket: Socket
    var pending: seq<Byte>
    var left: Option<int> // the header block's budget, from its first line on
    var done: bool
    ghost var taken: nat  // bytes that have left the socket

    ghost predicate Valid()
      reads this, socket
    {
      socket.Valid() && |pending| <= taken
    }

    /** What is still to be read: the bytes already taken but not handed out, and those not taken. */
    ghost function Stream(): seq<Byte>
      reads this, socket
    {
      pending + socket.Unread()
    }

    constructor (socket: Socket)
      requires socket.Valid()
      ensures Valid() && this.socket == socket && Stream() == socket.Unread()
      ensures left.None? && !done && taken == 0
    {
      this.socket := socket;
      pending, left, done, taken := [], None, false, 0;
    }

    /** One line, or what the limit or the end of the stream leaves of it; at most the limit is ever pending. */
    method ReadUpTo(limit: Option<nat>) returns (line: seq<Byte>)
      requires Valid()
      modifies this`pending, this`taken, socket
      ensures Valid() && line == Line(old(Stream()), limit) && Stream() == old(Stream())[|line|..]
      ensures taken - |pending| == old(taken) - |old(pending)| + |line|
      ensures limit.Some? ==> taken <= old(taken) || taken <= old(taken) - |old(pending)| + limit.value
    {
      hide LineLength, LineEnd;
      ghost var s := Stream();
      while true
        invariant Valid() && Stream() == s
        invariant taken - |pending| == old(taken) - |old(pending)|
        invariant limit.Some? ==> taken <= old(taken) || |pending| <= limit.value
        decreases |socket.Unread()|
      {
        var end := LineEnd(pending);
        if end > 0 || (limit.Some? && |pending| >= limit.value) {
          TakesPending(pending, socket.Unread(), limit);
          if limit.Some? {
            end := Least(if end > 0 then end else limit.value, limit.value);
          }
          line := pending[..end];
          pending := pending[end..];
          Split(line, pending, socket.Unread(), s);
          return;
        }
        var part := socket.Read1(if limit.Some? then limit.value - |pending| else 8192);
        taken := taken + |part|;
        if part == [] {
          TakesAll(pending, limit);
          assert s == pending;
          line := pending;
          pending := [];
          return;
        }
        assert s == pending + part + socket.Unread();
        pending := pending + part;
      }
    }

    /** One line of the head; after the head, lines of any kind. */
    method ReadLine(limit: Option<nat>) returns (r: Result<seq<Byte>, Refusal>)
      requires Valid() && (!done && left.Some? ==> left.value >= 0)
      modifies this, socket
      ensures Valid()
      ensures var s := old(Stream());
              if old(done) then r == Ok(Line(s, limit)) && done && left == old(left)
              else if old(left).None? then
                && r == RequestLine(s) && !done
                && left == if r.Ok? then Some(MAX_HEADER_BLOCK) else None
              else
                && r == HeaderLine(s, old(left).value)
                && done == (r == Ok(END_OF_HEAD))
                && (r.Ok? ==> left == Some(if done then old(left).value else old(left).value - |r.value|))
      ensures r.Ok? ==> Stream() == old(Stream())[|r.value|..]
      ensures r.Ok? ==> taken - |pending| == old(taken) - |old(pending)| + |r.value|
      ensures !old(done) ==>
                taken <= old(taken) ||
                taken <= old(taken) - |old(pending)| + (if old(left).None? then MAX_REQUEST_LINE else old(left).value) + 3
    {
      var line;
      if done {
        line := ReadUpTo(limit);
        return Ok(line);
      }
      if left.None? {
        line := ReadUpTo(Some(MAX_REQUEST_LINE + 3));
        var content := Content(line);
        if |content| > MAX_REQUEST_LINE { return Err(TooLarge); }
        if line != [] && (!EndsInCrLf(line) || !Printable(content)) { return Err(Bad); }
        left := Some(MAX_HEADER_BLOCK);
        return Ok(line);
      }
      line := ReadUpTo(Some(left.value + 3));
      if line == END_OF_HEAD {
        done := true;
        return Ok(line);
      }
      left := Some(left.value - |line|);
      if left.value < 0 { return Err(TooLarge); }
      if !FieldLine(line) { return Err(Bad); }
      return Ok(line);
    }

    /** The head, line by line, as the server reads it. Whatever the pieces, the outcome is that of the bytes, what is
        pending and unread is the body, and no more than both limits and a few bytes have left the socket. */
    method ReadHead() returns (o: Outcome)
      requires Valid() && left.None? && !done && taken == 0 && pending == []
      modifies this, socket
      ensures Valid() && o == ParseHead(old(Stream())).0
      ensures o.Accepted? ==> done && Stream() == ParseHead(old(Stream())).1
      ensures taken <= MAX_REQUEST_LINE + 3 + MAX_HEADER_BLOCK + 3
    {
      hide HeaderLine, HeaderBlock, Prefixed;
      RequestShape(Stream());
      var request := ReadLine(None);
      if request.Err? { return Refused(request.error); }
      if request.value == [] { return Nothing; }
      ghost var after := Stream();
      var headers: seq<seq<Byte>> := [];
      ghost var block := HeaderBlock(after, MAX_HEADER_BLOCK);
      NonePrefixed(block);
      while !done
        invariant Valid() && left.Some? && 0 <= left.value <= MAX_HEADER_BLOCK
        invariant taken - |pending| == |request.value| + MAX_HEADER_BLOCK - left.value + if done then 2 else 0
        invariant taken <= MAX_REQUEST_LINE + 3 + MAX_HEADER_BLOCK + 3
        invariant done ==> block == Ok((headers, Stream()))
        invariant !done ==> block == Prefixed(headers, HeaderBlock(Stream(), left.value))
        decreases !done, |Stream()|
      {
        PrefixedMore(headers, Stream(), left.value);
        HeaderShapeIf(Stream(), left.value);
        var line := ReadLine(None);
        if line.Err? { return Refused(line.error); }
        if !done { headers := headers + [line.value]; }
      }
      return Accepted(request.value, headers);
    }

    /** The body, through the same buffer: the next bytes of the stream, fewer only at its end. */
    method Read(size: nat) returns (raw: seq<Byte>)
      requires Valid()
      modifies this`pending, this`taken, socket
      ensures Valid() && raw == old(Stream())[..Least(size, |old(Stream())|)] && Stream() == old(Stream())[|raw|..]
    {
      ghost var s := Stream();
      var held := Least(size, |pending|);
      raw := pending[..held];
      pending := pending[held..];
      assert s == raw + Stream();
      while |raw| < size
        invariant Valid() && |raw| <= size && s == raw + Stream() && (|raw| < size ==> pending == [])
        decreases size - |raw|
      {
        var part := socket.Read1(size - |raw|);
        taken := taken + |part|;
        if part == [] { break; }
        assert s == raw + part + socket.Unread();
        raw := raw + part;
      }
    }
  }

  function Prefixed(headers: seq<seq<Byte>>, rest: Result<(seq<seq<Byte>>, seq<Byte>), Refusal>):
      Result<(seq<seq<Byte>>, seq<Byte>), Refusal> {
    if rest.Err? then rest else Ok((headers + rest.value.0, rest.value.1))
  }

  lemma NonePrefixed(rest: Result<(seq<seq<Byte>>, seq<Byte>), Refusal>)
    ensures Prefixed([], rest) == rest
  {
    assert rest.Ok? ==> [] + rest.value.0 == rest.value.0;
  }

  /** One more line read off a header block. */
  lemma PrefixedMore(headers: seq<seq<Byte>>, s: seq<Byte>, left: nat)
    ensures var line := HeaderLine(s, left);
            Prefixed(headers, HeaderBlock(s, left)) ==
            if line.Err? then Err(line.error)
            else if line.value == END_OF_HEAD then Ok((headers, s[|line.value|..]))
            else Prefixed(headers + [line.value], HeaderBlock(s[|line.value|..], left - |line.value|))
  {
    hide HeaderLine;
    HeaderShapeIf(s, left);
    var line := HeaderLine(s, left);
    assert headers + [] == headers;
    if line.Ok? && line.value != END_OF_HEAD {
      var rest := HeaderBlock(s[|line.value|..], left - |line.value|);
      if rest.Ok? {
        assert headers + ([line.value] + rest.value.0) == headers + [line.value] + rest.value.0;
      }
    }
  }

  lemma RequestShape(s: seq<Byte>)
    ensures RequestLine(s).Ok? ==> |RequestLine(s).value| <= MAX_REQUEST_LINE + 2 && |RequestLine(s).value| <= |s|
  {
  }

  lemma HeaderShapeIf(s: seq<Byte>, left: nat)
    ensures HeaderLine(s, left).Ok? ==>
              |HeaderLine(s, left).value| <= |s| &&
              (HeaderLine(s, left).value != END_OF_HEAD ==> 0 < |HeaderLine(s, left).value| <= left)
  {
  }

  /** The first line end of a stream, when it is among the bytes pending. */
  lemma {:induction false} PendingEnd(pending: seq<Byte>, unread: seq<Byte>)
    ensures LineEnd(pending) > 0 ==> LineEnd(pending + unread) == LineEnd(pending)
    ensures LineEnd(pending) == 0 ==> LineEnd(pending + unread) == 0 || LineEnd(pending + unread) > |pending|
  {
    if pending == [] {
      assert pending + unread == unread;
    } else {
      assert (pending + unread)[1..] == pending[1..] + unread;
      PendingEnd(pending[1..], unread);
    }
  }

  lemma Split(line: seq<Byte>, pending: seq<Byte>, unread: seq<Byte>, s: seq<Byte>)
    requires s == line + pending + unread
    ensures s[..|line|] == line && s[|line|..] == pending + unread
  {
  }

  lemma TakesAll(pending: seq<Byte>, limit: Option<nat>)
    requires LineEnd(pending) == 0 && (limit.Some? ==> |pending| < limit.value)
    ensures LineLength(pending, limit) == |pending| && pending[..|pending|] == pending
  {
  }

  /** What a read of a line takes when the line's end, or as many bytes as the limit lets, are pending. */
  lemma TakesPending(pending: seq<Byte>, unread: seq<Byte>, limit: Option<nat>)
    requires LineEnd(pending) > 0 || (limit.Some? && |pending| >= limit.value)
    ensures var end := LineEnd(pending);
            LineLength(pending + unread, limit) ==
            if limit.Some? then Least(if end > 0 then end else limit.value, limit.value) else end
  {
    PendingEnd(pending, unread);
  }
}
