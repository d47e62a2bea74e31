/** The guard that counts the structure of a JSON text before anything decodes it, and what its counters mean. */
module JsonGuard {
  import opened Wrappers
  import opened Bytes

  const QUOTE: Byte := 34
  const COMMA: Byte := 44
  const OPEN_ARRAY: Byte := 91
  const BACKSLASH: Byte := 92
  const CLOSE_ARRAY: Byte := 93
  const OPEN_OBJECT: Byte := 123
  const CLOSE_OBJECT: Byte := 125

  const MAX_INDEX_CHUNKS := 50000
  const MAX_CONTAINERS := MAX_INDEX_CHUNKS + 8
  const MAX_TOKENS := MAX_INDEX_CHUNKS * 12 + 128
  const MAX_DEPTH := 64
  const MAX_SIDECAR_BYTES := 64 * 1024 * 1024
  const MAX_JSON_TEXT_BYTES := 2 * MAX_SIDECAR_BYTES

  predicate Structural(b: Byte) {
    b == OPEN_ARRAY || b == CLOSE_ARRAY || b == OPEN_OBJECT || b == CLOSE_OBJECT || b == COMMA || b == COLON
  }

  // ---------------------------------------------------------------- the scan

  /** How many bytes of s, the text after an opening quote, a string takes through its closing quote. A backslash takes
      the byte after it along, unless that is a line feed. */
  function StringLength(s: seq<Byte>): (length: Option<nat>)
    ensures length.Some? ==> 0 < length.value <= |s|
  {
    if s == [] then None
    else if s[0] == QUOTE then Some(1)
    else if s[0] == BACKSLASH then
      if |s| == 1 || s[1] == LF then None
      else
        var rest := StringLength(s[2..]);
        if rest.None? then None else Some(rest.value + 2)
    else
      var rest := StringLength(s[1..]);
      if rest.None? then None else Some(rest.value + 1)
  }

  /** The structural bytes outside strings; a quote that opens no string is skipped. */
  function Tokens(s: seq<Byte>): seq<Byte>
    decreases |s|
  {
    if s == [] then []
    else if s[0] == QUOTE then
      var length := StringLength(s[1..]);
      if length.None? then Tokens(s[1..]) else Tokens(s[1 + length.value..])
    else if Structural(s[0]) then [s[0]] + Tokens(s[1..])
    else Tokens(s[1..])
  }

  /** No string is left open, and none hides a line feed behind a backslash. */
  predicate Closes(s: seq<Byte>)
    decreases |s|
  {
    if s == [] then true
    else if s[0] == QUOTE then
      var length := StringLength(s[1..]);
      length.Some? && Closes(s[1 + length.value..])
    else Closes(s[1..])
  }

  predicate WithinLimits(containers: nat, tokens: nat, depth: int) {
    containers <= MAX_CONTAINERS && tokens <= MAX_TOKENS && depth <= MAX_DEPTH
  }

  function Containers(b: Byte): nat {
    if b == OPEN_ARRAY || b == OPEN_OBJECT then 1 else 0
  }

  function Counted(b: Byte): nat {
    if b == CLOSE_ARRAY || b == CLOSE_OBJECT then 0 else 1
  }

  function Deeper(b: Byte): int {
    if b == OPEN_ARRAY || b == OPEN_OBJECT then 1 else if b == CLOSE_ARRAY || b == CLOSE_OBJECT then -1 else 0
  }

  /** Whether the counters stay within the limits all along. */
  predicate Guarded(tokens: seq<Byte>, containers: nat, counted: nat, depth: int) {
    tokens == [] ||
    (var c, t, d := containers + Containers(tokens[0]), counted + Counted(tokens[0]), depth + Deeper(tokens[0]);
     WithinLimits(c, t, d) && Guarded(tokens[1..], c, t, d))
  }

  // ---------------------------------------------------------------- the width of the decoder's input

  predicate Hex(b: Byte) {
    48 <= b <= 57 || 65 <= b <= 70 || 97 <= b <= 102
  }

  predicate HexNotZero(b: Byte) {
    Hex(b) && b != 48
  }

  /** An escape of four hexadecimal digits. */
  predicate EscapeAt(data: seq<Byte>, i: nat) {
    && i + 6 <= |data| && data[i] == BACKSLASH && data[i + 1] == 117
    && Hex(data[i + 2]) && Hex(data[i + 3]) && Hex(data[i + 4]) && Hex(data[i + 5])
  }

  /** The first byte of a character above U+00FF, or the escape of one. */
  predicate WideAt(data: seq<Byte>, i: nat) {
    i < |data| &&
    (0xc4 <= data[i] <= 0xf4 ||
     (EscapeAt(data, i) && (HexNotZero(data[i + 2]) || (data[i + 2] == 48 && HexNotZero(data[i + 3])))))
  }

  /** The first byte of a character above U+FFFF, or the escape of a leading surrogate. */
  predicate WidestAt(data: seq<Byte>, i: nat) {
    i < |data| &&
    (0xf0 <= data[i] <= 0xf4 ||
     (EscapeAt(data, i) && data[i + 2] in {68, 100} && data[i + 3] in {56, 57, 65, 66, 97, 98}))
  }

  function SearchWide(data: seq<Byte>, from: nat): (at: Option<nat>)
    ensures at.Some? ==> from <= at.value && WideAt(data, at.value) && forall k: nat | from <= k < at.value :: !WideAt(data, k)
    ensures at.None? ==> forall k: nat | from <= k :: !WideAt(data, k)
    decreases |data| - from
  {
    if from >= |data| then None else if WideAt(data, from) then Some(from) else SearchWide(data, from + 1)
  }

  function SearchWidest(data: seq<Byte>, from: nat): (found: bool)
    ensures found <==> exists k: nat :: from <= k && WidestAt(data, k)
    decreases |data| - from
  {
    if from >= |data| then false else if WidestAt(data, from) then true else SearchWidest(data, from + 1)
  }

  /** How many bytes a character of the decoded text takes up: one wide one widens them all. */
  function TextWidth(data: seq<Byte>): (width: nat)
    ensures width == 4 <==> exists k: nat :: WidestAt(data, k)
    ensures width == 1 <==> forall k: nat :: !WideAt(data, k)
    ensures width in {1, 2, 4}
  {
    var first := SearchWide(data, 0);
    assert forall k: nat | WidestAt(data, k) :: WideAt(data, k);
    if first.None? then 1 else if SearchWidest(data, first.value) then 4 else 2
  }

  // ---------------------------------------------------------------- the width, by the characters of the text

  type Scalar = c: int | 0 <= c < 0x110000 && !(0xd800 <= c < 0xe000)

  /** UTF-8: section 3 of RFC 3629. */
  function CharBytes(c: Scalar): (bytes: seq<Byte>)
    ensures bytes != []
  {
    if c < 0x80 then [c]
    else if c < 0x800 then [0xc0 + c / 64, 0x80 + c % 64]
    else if c < 0x10000 then [0xe0 + c / 4096, 0x80 + c / 64 % 64, 0x80 + c % 64]
    else [0xf0 + c / 262144, 0x80 + c / 4096 % 64, 0x80 + c / 64 % 64, 0x80 + c % 64]
  }

  function Encoded(cs: seq<Scalar>): seq<Byte> {
    if cs == [] then [] else CharBytes(cs[0]) + Encoded(cs[1..])
  }

  predicate HexChar(c: int) {
    48 <= c <= 57 || 65 <= c <= 70 || 97 <= c <= 102
  }

  function HexValue(c: int): int
    requires HexChar(c)
  {
    if c <= 57 then c - 48 else if c <= 70 then c - 55 else c - 87
  }

  /** A text that starts with an escape, and the unit escaped. */
  predicate Escapes(cs: seq<Scalar>) {
    && |cs| >= 6 && cs[0] == 92 && cs[1] == 117
    && HexChar(cs[2]) && HexChar(cs[3]) && HexChar(cs[4]) && HexChar(cs[5])
  }

  function Unit(cs: seq<Scalar>): int
    requires Escapes(cs)
  {
    4096 * HexValue(cs[2]) + 256 * HexValue(cs[3]) + 16 * HexValue(cs[4]) + HexValue(cs[5])
  }

  /** Some character, or some escape, is above U+00FF. */
  predicate HasWide(cs: seq<Scalar>) {
    cs != [] && (cs[0] > 0xff || (Escapes(cs) && Unit(cs) > 0xff) || HasWide(cs[1..]))
  }

  /** Some character is above U+FFFF, or some escape a leading surrogate. */
  predicate HasWidest(cs: seq<Scalar>) {
    cs != [] && (cs[0] > 0xffff || (Escapes(cs) && 0xd800 <= Unit(cs) <= 0xdbff) || HasWidest(cs[1..]))
  }

  lemma FirstByte(cs: seq<Scalar>)
    requires cs != []
    ensures Encoded(cs) != [] && (Encoded(cs)[0] < 128 <==> cs[0] < 128)
    ensures cs[0] < 128 ==> Encoded(cs) == [cs[0] as Byte] + Encoded(cs[1..])
  {
  }

  /** The characters below 128 that a text starts with are its bytes, and the other way round. */
  lemma {:induction false} CharsLow(cs: seq<Scalar>, n: nat)
    requires n <= |cs| && forall j | 0 <= j < n :: cs[j] < 128
    ensures n <= |Encoded(cs)| && forall j | 0 <= j < n :: Encoded(cs)[j] == cs[j]
  {
    hide Encoded;
    if n > 0 {
      FirstByte(cs);
      CharsLow(cs[1..], n - 1);
    }
  }

  lemma {:induction false} BytesLow(cs: seq<Scalar>, n: nat)
    requires n <= |Encoded(cs)| && forall j | 0 <= j < n :: Encoded(cs)[j] < 128
    ensures n <= |cs| && forall j | 0 <= j < n :: Encoded(cs)[j] == cs[j]
  {
    if n > 0 {
      assert cs != [];
      FirstByte(cs);
      var rest := Encoded(cs[1..]);
      assert forall j | 0 <= j < n - 1 :: rest[j] == Encoded(cs)[j + 1];
      BytesLow(cs[1..], n - 1);
      forall j | 0 <= j < n ensures Encoded(cs)[j] == cs[j] {
        assert j > 0 ==> Encoded(cs)[j] == rest[j - 1] == cs[1..][j - 1];
      }
    }
  }

  lemma EscapeSame(cs: seq<Scalar>)
    ensures EscapeAt(Encoded(cs), 0) <==> Escapes(cs)
    ensures Escapes(cs) ==> Encoded(cs)[2] == cs[2] && Encoded(cs)[3] == cs[3]
  {
    hide Encoded;
    if Escapes(cs) {
      CharsLow(cs, 6);
    }
    if EscapeAt(Encoded(cs), 0) {
      BytesLow(cs, 6);
    }
  }

  /** What one place of a text tells does not depend on what stands before it. */
  lemma PlaceShift(a: seq<Byte>, rest: seq<Byte>, k: nat)
    ensures WideAt(a + rest, |a| + k) <==> WideAt(rest, k)
    ensures WidestAt(a + rest, |a| + k) <==> WidestAt(rest, k)
  {
    assert forall i | 0 <= i < |rest| :: (a + rest)[|a| + i] == rest[i];
  }

  /** Inside a character nothing is told. */
  lemma PlaceInside(c: Scalar, rest: seq<Byte>, k: nat)
    requires 0 < k < |CharBytes(c)|
    ensures !WideAt(CharBytes(c) + rest, k) && !WidestAt(CharBytes(c) + rest, k)
  {
    assert 0x80 <= CharBytes(c)[k] <= 0xbf;
  }

  lemma PlaceFirst(cs: seq<Scalar>)
    requires cs != []
    ensures WideAt(Encoded(cs), 0) <==> cs[0] > 0xff || (Escapes(cs) && Unit(cs) > 0xff)
    ensures WidestAt(Encoded(cs), 0) <==> cs[0] > 0xffff || (Escapes(cs) && 0xd800 <= Unit(cs) <= 0xdbff)
  {
    EscapeSame(cs);
    assert Encoded(cs)[0] == CharBytes(cs[0])[0];
    if Escapes(cs) {
      UnitDigits(cs);
    }
  }

  lemma UnitDigits(cs: seq<Scalar>)
    requires Escapes(cs)
    ensures Unit(cs) > 0xff <==> cs[2] != 48 || cs[3] != 48
    ensures 0xd800 <= Unit(cs) <= 0xdbff <==> cs[2] in {68, 100} && cs[3] in {56, 57, 65, 66, 97, 98}
  {
    hide HexValue;
    DigitIs(cs[2]);
    DigitIs(cs[3]);
    DigitIs(cs[4]);
    DigitIs(cs[5]);
  }

  lemma DigitIs(c: int)
    requires HexChar(c)
    ensures 0 <= HexValue(c) <= 15 && (HexValue(c) == 0 <==> c == 48) && (HexValue(c) == 13 <==> c in {68, 100})
    ensures 8 <= HexValue(c) <= 11 <==> c in {56, 57, 65, 66, 97, 98}
  {
  }

  lemma {:induction false} WidePlaces(cs: seq<Scalar>)
    ensures HasWide(cs) <==> exists k: nat :: WideAt(Encoded(cs), k)
    ensures HasWidest(cs) <==> exists k: nat :: WidestAt(Encoded(cs), k)
  {
    hide WideAt, WidestAt, Escapes, Unit, CharBytes;
    if cs == [] {
      NoPlaces();
    } else {
      var a, rest := CharBytes(cs[0]), Encoded(cs[1..]);
      WidePlaces(cs[1..]);
      PlaceFirst(cs);
      forall k: nat
        ensures WideAt(a + rest, |a| + k) <==> WideAt(rest, k)
        ensures WidestAt(a + rest, |a| + k) <==> WidestAt(rest, k)
      {
        PlaceShift(a, rest, k);
      }
      forall k: nat | WideAt(a + rest, k) || WidestAt(a + rest, k) ensures k == 0 || k >= |a| {
        if 0 < k < |a| {
          PlaceInside(cs[0], rest, k);
        }
      }
      forall k: nat | k >= |a|
        ensures WideAt(a + rest, k) <==> WideAt(rest, k - |a|)
        ensures WidestAt(a + rest, k) <==> WidestAt(rest, k - |a|)
      {
        PlaceShift(a, rest, k - |a|);
      }
    }
  }

  lemma NoPlaces()
    ensures forall k: nat :: !WideAt(Encoded([]), k) && !WidestAt(Encoded([]), k)
  {
  }

  /** A text in UTF-8 is 4 bytes a character once decoded when some character of it is above U+FFFF or some escape a leading
      surrogate, otherwise 2 when some character or escape is above U+00FF, and otherwise 1. */
  lemma WidthOf(cs: seq<Scalar>)
    ensures TextWidth(Encoded(cs)) == if HasWidest(cs) then 4 else if HasWide(cs) then 2 else 1
  {
    hide WideAt, WidestAt, HasWide, HasWidest, Encoded;
    WidePlaces(cs);
  }

  // ---------------------------------------------------------------- the guard

  lemma NoTokens()
    ensures Tokens([]) == []
  {
  }

  lemma QuoteTokens(s: seq<Byte>)
    requires s != [] && s[0] == QUOTE
    ensures var length := StringLength(s[1..]);
            Tokens(s) == Tokens(s[1 + if length.None? then 0 else length.value..])
  {
  }

  lemma OtherTokens(s: seq<Byte>)
    requires s != [] && s[0] != QUOTE
    ensures Tokens(s) == if Structural(s[0]) then [s[0]] + Tokens(s[1..]) else Tokens(s[1..])
  {
  }

  /** What the guard accepts: a text that is not too large once decoded, with counters within the limits all along. */
  predicate Accepted(data: seq<Byte>) {
    |data| * TextWidth(data) <= MAX_JSON_TEXT_BYTES && Guarded(Tokens(data), 0, 0, 0)
  }

  /** The guard: the text's size once decoded, then one pass over it, giving up at the first token over a limit. */
  method GuardJson(data: seq<Byte>) returns (ok: bool)
    ensures ok <==> Accepted(data)
  {
    hide Tokens, StringLength, TextWidth, WithinLimits;
    if |data| * TextWidth(data) > MAX_JSON_TEXT_BYTES { return false; }
    NoTokens();
    var containers: nat, tokens: nat, depth, at: nat := 0, 0, 0, 0;
    while at < |data|
      invariant at <= |data|
      invariant Guarded(Tokens(data), 0, 0, 0) <==> Guarded(Tokens(data[at..]), containers, tokens, depth)
    {
      var rest := data[at..];
      if data[at] == QUOTE {
        var length := StringLength(rest[1..]);
        QuoteTokens(rest);
        at := at + 1 + if length.None? then 0 else length.value;
        assert data[at..] == rest[1 + if length.None? then 0 else length.value..];
        continue;
      }
      assert data[at + 1..] == rest[1..];
      OtherTokens(rest);
      if !Structural(data[at]) {
        at := at + 1;
        continue;
      }
      var token := data[at];
      assert ([token] + Tokens(rest[1..]))[1..] == Tokens(rest[1..]);
      if token == OPEN_ARRAY || token == OPEN_OBJECT {
        containers := containers + 1;
        depth := depth + 1;
        tokens := tokens + 1;
      } else if token == CLOSE_ARRAY || token == CLOSE_OBJECT {
        depth := depth - 1;
      } else {
        tokens := tokens + 1;
      }
      at := at + 1;
      if !WithinLimits(containers, tokens, depth) { return false; }
    }
    assert data[|data|..] == [];
    return true;
  }

  // ---------------------------------------------------------------- JSON texts, whitespace and all

  /** A value with the whitespace around it; sections 2 to 5 and 7 of RFC 8259. */
  datatype Element = Element(before: seq<Byte>, value: Value, after: seq<Byte>)

  datatype Value =
    | Literal(text: seq<Byte>) // a number, true, false or null
    | Str(body: seq<Byte>)
    | EmptyArray(space: seq<Byte>)
    | Array(items: Items)
    | EmptyObject(space: seq<Byte>)
    | Object(members: Members)

  datatype Items = Last(item: Element) | More(item: Element, rest: Items)

  datatype Member = Member(before: seq<Byte>, key: seq<Byte>, after: seq<Byte>, value: Element)

  datatype Members = LastMember(member: Member) | MoreMembers(member: Member, others: Members)

  predicate White(s: seq<Byte>) {
    forall k | 0 <= k < |s| :: s[k] == 32 || s[k] == 9 || s[k] == 10 || s[k] == 13
  }

  /** What stands between the quotes of a string: section 7. */
  predicate StringBody(s: seq<Byte>)
    decreases |s|
  {
    if s == [] then true
    else if s[0] == BACKSLASH then
      && |s| >= 2
      && if s[1] == 117 then |s| >= 6 && Hex(s[2]) && Hex(s[3]) && Hex(s[4]) && Hex(s[5]) && StringBody(s[6..])
         else s[1] in {34, 92, 47, 98, 102, 110, 114, 116} && StringBody(s[2..])
    else s[0] != QUOTE && s[0] >= 32 && StringBody(s[1..])
  }

  /** The bytes of numbers and of the three literal names. */
  predicate Plain(s: seq<Byte>) {
    s != [] && forall k | 0 <= k < |s| ::
      48 <= s[k] <= 57 || 97 <= s[k] <= 122 || s[k] == 43 || s[k] == 45 || s[k] == 46 || s[k] == 69
  }

  predicate ElementOk(e: Element) {
    White(e.before) && White(e.after) && ValueOk(e.value)
  }

  predicate ValueOk(v: Value) {
    match v
    case Literal(text) => Plain(text)
    case Str(body) => StringBody(body)
    case EmptyArray(space) => White(space)
    case Array(items) => ItemsOk(items)
    case EmptyObject(space) => White(space)
    case Object(members) => MembersOk(members)
  }

  predicate ItemsOk(items: Items) {
    ElementOk(items.item) && (items.More? ==> ItemsOk(items.rest))
  }

  predicate MemberOk(m: Member) {
    White(m.before) && StringBody(m.key) && White(m.after) && ElementOk(m.value)
  }

  predicate MembersOk(members: Members) {
    MemberOk(members.member) && (members.MoreMembers? ==> MembersOk(members.others))
  }

  function Text(e: Element): seq<Byte> {
    e.before + ValueText(e.value) + e.after
  }

  function ValueText(v: Value): seq<Byte> {
    match v
    case Literal(text) => text
    case Str(body) => [QUOTE] + body + [QUOTE]
    case EmptyArray(space) => [OPEN_ARRAY] + space + [CLOSE_ARRAY]
    case Array(items) => [OPEN_ARRAY] + ItemsText(items) + [CLOSE_ARRAY]
    case EmptyObject(space) => [OPEN_OBJECT] + space + [CLOSE_OBJECT]
    case Object(members) => [OPEN_OBJECT] + MembersText(members) + [CLOSE_OBJECT]
  }

  function ItemsText(items: Items): seq<Byte> {
    Text(items.item) + if items.More? then [COMMA] + ItemsText(items.rest) else []
  }

  function MemberText(m: Member): seq<Byte> {
    m.before + ([QUOTE] + m.key + [QUOTE]) + m.after + [COLON] + Text(m.value)
  }

  function MembersText(members: Members): seq<Byte> {
    MemberText(members.member) + if members.MoreMembers? then [COMMA] + MembersText(members.others) else []
  }

  // ---------------------------------------------------------------- what a value is made of

  function Max(a: nat, b: nat): nat {
    if a >= b then a else b
  }

  /** Its containers, its commas and colons, and how deep it nests. */
  datatype Shape = Shape(containers: nat, separators: nat, depth: nat)

  function Beside(a: Shape, b: Shape, separators: nat): Shape {
    Shape(a.containers + b.containers, a.separators + b.separators + separators, Max(a.depth, b.depth))
  }

  function Inside(a: Shape): Shape {
    Shape(a.containers + 1, a.separators, a.depth + 1)
  }

  const NOTHING := Shape(0, 0, 0)

  function ShapeOf(v: Value): Shape {
    match v
    case Literal(_) => NOTHING
    case Str(_) => NOTHING
    case EmptyArray(_) => Inside(NOTHING)
    case Array(items) => Inside(ItemsShape(items))
    case EmptyObject(_) => Inside(NOTHING)
    case Object(members) => Inside(MembersShape(members))
  }

  function ItemsShape(items: Items): Shape {
    if items.Last? then ShapeOf(items.item.value) else Beside(ShapeOf(items.item.value), ItemsShape(items.rest), 1)
  }

  function MembersShape(members: Members): Shape {
    var one := Beside(ShapeOf(members.member.value.value), NOTHING, 1);
    if members.LastMember? then one else Beside(one, MembersShape(members.others), 1)
  }

  // ---------------------------------------------------------------- the tokens of a text

  /** The structural bytes of a value, in order. */
  function Structure(v: Value): seq<Byte> {
    match v
    case Literal(_) => []
    case Str(_) => []
    case EmptyArray(_) => [OPEN_ARRAY, CLOSE_ARRAY]
    case Array(items) => [OPEN_ARRAY] + ItemsStructure(items) + [CLOSE_ARRAY]
    case EmptyObject(_) => [OPEN_OBJECT, CLOSE_OBJECT]
    case Object(members) => [OPEN_OBJECT] + MembersStructure(members) + [CLOSE_OBJECT]
  }

  function ItemsStructure(items: Items): seq<Byte> {
    Structure(items.item.value) + if items.More? then [COMMA] + ItemsStructure(items.rest) else []
  }

  function MembersStructure(members: Members): seq<Byte> {
    [COLON] + Structure(members.member.value.value)
    + if members.MoreMembers? then [COMMA] + MembersStructure(members.others) else []
  }

  /** Bytes that are neither structural nor a quote say nothing to the scan. */
  predicate Silent(s: seq<Byte>) {
    forall k | 0 <= k < |s| :: !Structural(s[k]) && s[k] != QUOTE
  }

  lemma {:induction false} SilentTokens(s: seq<Byte>, rest: seq<Byte>)
    requires Silent(s)
    ensures Tokens(s + rest) == Tokens(rest) && (Closes(rest) ==> Closes(s + rest))
  {
    if s == [] {
      assert s + rest == rest;
    } else {
      assert (s + rest)[1..] == s[1..] + rest;
      SilentTokens(s[1..], rest);
    }
  }

  lemma {:induction false} BodyLength(body: seq<Byte>, rest: seq<Byte>)
    requires StringBody(body)
    ensures StringLength(body + ([QUOTE] + rest)) == Some(|body| + 1)
    decreases |body|
  {
    var s := body + ([QUOTE] + rest);
    if body == [] {
    } else if body[0] == BACKSLASH && body[1] == 117 {
      assert s[2..] == [body[2], body[3], body[4], body[5]] + (body[6..] + ([QUOTE] + rest));
      BodyLength(body[6..], rest);
      FourMore(body[2], body[3], body[4], body[5], body[6..] + ([QUOTE] + rest));
    } else if body[0] == BACKSLASH {
      assert s[2..] == body[2..] + ([QUOTE] + rest);
      BodyLength(body[2..], rest);
    } else {
      assert s[1..] == body[1..] + ([QUOTE] + rest);
      BodyLength(body[1..], rest);
    }
  }

  lemma OneMore(a: Byte, rest: seq<Byte>)
    requires a != QUOTE && a != BACKSLASH && StringLength(rest).Some?
    ensures StringLength([a] + rest) == Some(StringLength(rest).value + 1)
  {
    assert ([a] + rest)[1..] == rest;
  }

  lemma FourMore(a: Byte, b: Byte, c: Byte, d: Byte, rest: seq<Byte>)
    requires Hex(a) && Hex(b) && Hex(c) && Hex(d) && StringLength(rest).Some?
    ensures StringLength([a, b, c, d] + rest) == Some(StringLength(rest).value + 4)
  {
    hide StringLength;
    OneMore(d, rest);
    OneMore(c, [d] + rest);
    OneMore(b, [c] + ([d] + rest));
    OneMore(a, [b] + ([c] + ([d] + rest)));
    assert [a, b, c, d] + rest == [a] + ([b] + ([c] + ([d] + rest)));
  }

  lemma StringTokens(body: seq<Byte>, rest: seq<Byte>)
    requires StringBody(body)
    ensures Tokens([QUOTE] + body + [QUOTE] + rest) == Tokens(rest)
    ensures Closes(rest) ==> Closes([QUOTE] + body + [QUOTE] + rest)
  {
    var s := [QUOTE] + body + [QUOTE] + rest;
    assert s[1..] == body + ([QUOTE] + rest);
    BodyLength(body, rest);
    assert s[1 + (|body| + 1)..] == rest;
  }

  lemma MarkTokens(b: Byte, rest: seq<Byte>)
    requires Structural(b)
    ensures Tokens([b] + rest) == [b] + Tokens(rest) && (Closes(rest) ==> Closes([b] + rest))
  {
    assert ([b] + rest)[1..] == rest;
  }

  /** Whatever its whitespace and its strings hold, a text's tokens are its structural bytes. */
  lemma {:induction false} ElementTokens(e: Element, rest: seq<Byte>)
    requires ElementOk(e)
    ensures Tokens(Text(e) + rest) == Structure(e.value) + Tokens(rest)
    ensures Closes(rest) ==> Closes(Text(e) + rest)
    decreases e, 1
  {
    assert Text(e) + rest == e.before + (ValueText(e.value) + (e.after + rest));
    SilentTokens(e.before, ValueText(e.value) + (e.after + rest));
    ValueTokens(e.value, e.after + rest);
    SilentTokens(e.after, rest);
  }

  lemma {:induction false} ValueTokens(v: Value, rest: seq<Byte>)
    requires ValueOk(v)
    ensures Tokens(ValueText(v) + rest) == Structure(v) + Tokens(rest)
    ensures Closes(rest) ==> Closes(ValueText(v) + rest)
    decreases v, 0
  {
    hide Tokens, Closes, StringBody;
    match v
    case Literal(text) =>
      SilentTokens(text, rest);
    case Str(body) =>
      StringTokens(body, rest);
    case EmptyArray(space) =>
      SilentTokens(space, [CLOSE_ARRAY] + rest);
      WrapTokens(OPEN_ARRAY, space, CLOSE_ARRAY, [], rest);
    case Array(items) =>
      ItemsTokens(items, [CLOSE_ARRAY] + rest);
      WrapTokens(OPEN_ARRAY, ItemsText(items), CLOSE_ARRAY, ItemsStructure(items), rest);
    case EmptyObject(space) =>
      SilentTokens(space, [CLOSE_OBJECT] + rest);
      WrapTokens(OPEN_OBJECT, space, CLOSE_OBJECT, [], rest);
    case Object(members) =>
      MembersTokens(members, [CLOSE_OBJECT] + rest);
      WrapTokens(OPEN_OBJECT, MembersText(members), CLOSE_OBJECT, MembersStructure(members), rest);
  }

  lemma Regroup(open: Byte, inner: seq<Byte>, close: Byte, rest: seq<Byte>)
    ensures [open] + inner + [close] + rest == [open] + (inner + ([close] + rest))
  {
  }

  lemma WrapTokens(open: Byte, inner: seq<Byte>, close: Byte, tokens: seq<Byte>, rest: seq<Byte>)
    requires Structural(open) && Structural(close)
    requires Tokens(inner + ([close] + rest)) == tokens + Tokens([close] + rest)
    requires Closes([close] + rest) ==> Closes(inner + ([close] + rest))
    ensures Tokens([open] + inner + [close] + rest) == [open] + tokens + [close] + Tokens(rest)
    ensures Closes(rest) ==> Closes([open] + inner + [close] + rest)
  {
    hide Tokens, Closes;
    Regroup(open, inner, close, rest);
    Regroup(open, tokens, close, Tokens(rest));
    MarkTokens(open, inner + ([close] + rest));
    MarkTokens(close, rest);
  }

  lemma {:induction false} ItemsTokens(items: Items, rest: seq<Byte>)
    requires ItemsOk(items)
    ensures Tokens(ItemsText(items) + rest) == ItemsStructure(items) + Tokens(rest)
    ensures Closes(rest) ==> Closes(ItemsText(items) + rest)
    decreases items, 0
  {
    if items.Last? {
      assert ItemsText(items) + rest == Text(items.item) + rest;
      ElementTokens(items.item, rest);
    } else {
      var more := ItemsText(items.rest) + rest;
      assert ItemsText(items) + rest == Text(items.item) + ([COMMA] + more);
      ElementTokens(items.item, [COMMA] + more);
      MarkTokens(COMMA, more);
      ItemsTokens(items.rest, rest);
    }
  }

  lemma MemberParts(before: seq<Byte>, key: seq<Byte>, after: seq<Byte>, value: seq<Byte>, rest: seq<Byte>)
    ensures before + ([QUOTE] + key + [QUOTE]) + after + [COLON] + value + rest ==
            before + ([QUOTE] + key + [QUOTE] + (after + ([COLON] + (value + rest))))
  {
  }

  lemma {:induction false} MemberTokens(m: Member, rest: seq<Byte>)
    requires MemberOk(m)
    ensures Tokens(MemberText(m) + rest) == [COLON] + Structure(m.value.value) + Tokens(rest)
    ensures Closes(rest) ==> Closes(MemberText(m) + rest)
    decreases m, 0
  {
    hide Tokens, Closes, StringBody;
    var colon := [COLON] + (Text(m.value) + rest);
    MemberParts(m.before, m.key, m.after, Text(m.value), rest);
    SilentTokens(m.before, [QUOTE] + m.key + [QUOTE] + (m.after + colon));
    StringTokens(m.key, m.after + colon);
    SilentTokens(m.after, colon);
    MarkTokens(COLON, Text(m.value) + rest);
    ElementTokens(m.value, rest);
  }

  lemma {:induction false} MembersTokens(members: Members, rest: seq<Byte>)
    requires MembersOk(members)
    ensures Tokens(MembersText(members) + rest) == MembersStructure(members) + Tokens(rest)
    ensures Closes(rest) ==> Closes(MembersText(members) + rest)
    decreases members, 0
  {
    if members.LastMember? {
      assert MembersText(members) + rest == MemberText(members.member) + rest;
      MemberTokens(members.member, rest);
    } else {
      var more := MembersText(members.others) + rest;
      assert MembersText(members) + rest == MemberText(members.member) + ([COMMA] + more);
      MemberTokens(members.member, [COMMA] + more);
      MarkTokens(COMMA, more);
      MembersTokens(members.others, rest);
    }
  }

  // ---------------------------------------------------------------- the counters are the value's own

  /** The counters after a part of a text of that shape, from where they stood before it, and the rest is guarded. */
  predicate Passes(shape: Shape, rest: seq<Byte>, containers: nat, counted: nat, depth: nat) {
    && WithinLimits(containers + shape.containers, counted + shape.containers + shape.separators, depth + shape.depth)
    && Guarded(rest, containers + shape.containers, counted + shape.containers + shape.separators, depth)
  }

  lemma MarkGuarded(b: Byte, rest: seq<Byte>, containers: nat, counted: nat, depth: int)
    ensures var c, t, d := containers + Containers(b), counted + Counted(b), depth + Deeper(b);
            Guarded([b] + rest, containers, counted, depth) <==> WithinLimits(c, t, d) && Guarded(rest, c, t, d)
  {
    assert ([b] + rest)[1..] == rest;
  }

  lemma {:induction false} ValueGuarded(v: Value, rest: seq<Byte>, containers: nat, counted: nat, depth: nat)
    requires WithinLimits(containers, counted, depth)
    ensures Guarded(Structure(v) + rest, containers, counted, depth) <==> Passes(ShapeOf(v), rest, containers, counted, depth)
    decreases v, 0
  {
    hide Guarded, Passes;
    match v
    case Literal(_) =>
      assert Structure(v) + rest == rest;
      LeafGuarded(rest, containers, counted, depth);
    case Str(_) =>
      assert Structure(v) + rest == rest;
      LeafGuarded(rest, containers, counted, depth);
    case EmptyArray(_) =>
      EmptyGuarded(OPEN_ARRAY, CLOSE_ARRAY, rest, containers, counted, depth);
    case EmptyObject(_) =>
      EmptyGuarded(OPEN_OBJECT, CLOSE_OBJECT, rest, containers, counted, depth);
    case Array(items) =>
      if WithinLimits(containers + 1, counted + 1, depth + 1) {
        ItemsGuarded(items, [CLOSE_ARRAY] + rest, containers + 1, counted + 1, depth + 1);
      }
      ContainerGuarded(OPEN_ARRAY, ItemsStructure(items), CLOSE_ARRAY, ItemsShape(items), rest, containers, counted, depth);
    case Object(members) =>
      if WithinLimits(containers + 1, counted + 1, depth + 1) {
        MembersGuarded(members, [CLOSE_OBJECT] + rest, containers + 1, counted + 1, depth + 1);
      }
      ContainerGuarded(OPEN_OBJECT, MembersStructure(members), CLOSE_OBJECT, MembersShape(members), rest,
                       containers, counted, depth);
  }

  lemma LeafGuarded(rest: seq<Byte>, containers: nat, counted: nat, depth: nat)
    requires WithinLimits(containers, counted, depth)
    ensures Guarded(rest, containers, counted, depth) <==> Passes(NOTHING, rest, containers, counted, depth)
  {
  }

  lemma ContainerGuarded(open: Byte, inner: seq<Byte>, close: Byte, shape: Shape, rest: seq<Byte>,
                         containers: nat, counted: nat, depth: nat)
    requires (open == OPEN_ARRAY && close == CLOSE_ARRAY) || (open == OPEN_OBJECT && close == CLOSE_OBJECT)
    requires WithinLimits(containers + 1, counted + 1, depth + 1) ==>
               (Guarded(inner + ([close] + rest), containers + 1, counted + 1, depth + 1) <==>
                Passes(shape, [close] + rest, containers + 1, counted + 1, depth + 1))
    ensures Guarded([open] + inner + [close] + rest, containers, counted, depth) <==>
            Passes(Inside(shape), rest, containers, counted, depth)
  {
    hide Guarded;
    Regroup(open, inner, close, rest);
    MarkGuarded(open, inner + ([close] + rest), containers, counted, depth);
    Closed(close, shape, rest, containers, counted, depth);
  }

  lemma EmptyGuarded(open: Byte, close: Byte, rest: seq<Byte>, containers: nat, counted: nat, depth: nat)
    requires (open == OPEN_ARRAY && close == CLOSE_ARRAY) || (open == OPEN_OBJECT && close == CLOSE_OBJECT)
    ensures Guarded([open, close] + rest, containers, counted, depth) <==>
            Passes(Inside(NOTHING), rest, containers, counted, depth)
  {
    assert [open, close] + rest == [open] + ([close] + rest);
    MarkGuarded(open, [close] + rest, containers, counted, depth);
    MarkGuarded(close, rest, containers + 1, counted + 1, depth + 1);
  }

  /** Closing a container leaves the counters as it found them but for the depth. */
  lemma Closed(close: Byte, inner: Shape, rest: seq<Byte>, containers: nat, counted: nat, depth: nat)
    requires close == CLOSE_ARRAY || close == CLOSE_OBJECT
    ensures Passes(inner, [close] + rest, containers + 1, counted + 1, depth + 1) <==>
            Passes(Inside(inner), rest, containers, counted, depth)
  {
    MarkGuarded(close, rest, containers + 1 + inner.containers,
                counted + 1 + inner.containers + inner.separators, depth + 1);
  }

  /** A separator between two parts counts once. */
  lemma Separated(first: Shape, others: seq<Byte>, second: Shape, rest: seq<Byte>,
                  containers: nat, counted: nat, depth: nat)
    requires var c, t := containers + first.containers, counted + first.containers + first.separators;
             WithinLimits(c, t + 1, depth) ==>
               (Guarded(others, c, t + 1, depth) <==> Passes(second, rest, c, t + 1, depth))
    ensures Passes(first, [COMMA] + others, containers, counted, depth) <==>
            Passes(Beside(first, second, 1), rest, containers, counted, depth)
  {
    hide Guarded;
    MarkGuarded(COMMA, others, containers + first.containers, counted + first.containers + first.separators, depth);
  }

  lemma {:induction false} ItemsGuarded(items: Items, rest: seq<Byte>, containers: nat, counted: nat, depth: nat)
    requires WithinLimits(containers, counted, depth)
    ensures Guarded(ItemsStructure(items) + rest, containers, counted, depth) <==>
            Passes(ItemsShape(items), rest, containers, counted, depth)
    decreases items, 0
  {
    hide Guarded, Passes, Structure, ShapeOf;
    var one := ShapeOf(items.item.value);
    if items.Last? {
      assert ItemsStructure(items) == Structure(items.item.value);
      ValueGuarded(items.item.value, rest, containers, counted, depth);
    } else {
      var others := ItemsStructure(items.rest) + rest;
      assert ItemsStructure(items) + rest == Structure(items.item.value) + ([COMMA] + others);
      ValueGuarded(items.item.value, [COMMA] + others, containers, counted, depth);
      var c, t := containers + one.containers, counted + one.containers + one.separators;
      if WithinLimits(c, t + 1, depth) {
        ItemsGuarded(items.rest, rest, c, t + 1, depth);
      }
      Separated(one, others, ItemsShape(items.rest), rest, containers, counted, depth);
    }
  }

  lemma {:induction false} MemberGuarded(value: Value, tail: seq<Byte>, containers: nat, counted: nat, depth: nat)
    requires WithinLimits(containers, counted, depth)
    ensures Guarded([COLON] + (Structure(value) + tail), containers, counted, depth) <==>
            Passes(Beside(ShapeOf(value), NOTHING, 1), tail, containers, counted, depth)
    decreases value, 1
  {
    hide Guarded, Structure, ShapeOf;
    var one := ShapeOf(value);
    var both := Beside(one, NOTHING, 1);
    assert counted + both.containers + both.separators == counted + 1 + one.containers + one.separators;
    assert containers + both.containers == containers + one.containers && both.depth == one.depth;
    MarkGuarded(COLON, Structure(value) + tail, containers, counted, depth);
    if WithinLimits(containers, counted + 1, depth) {
      ValueGuarded(value, tail, containers, counted + 1, depth);
    }
  }

  lemma {:induction false} MembersGuarded(members: Members, rest: seq<Byte>, containers: nat, counted: nat, depth: nat)
    requires WithinLimits(containers, counted, depth)
    ensures Guarded(MembersStructure(members) + rest, containers, counted, depth) <==>
            Passes(MembersShape(members), rest, containers, counted, depth)
    decreases members, 0
  {
    hide Guarded, Passes, Structure, ShapeOf;
    var value := members.member.value.value;
    var one := Beside(ShapeOf(value), NOTHING, 1);
    if members.LastMember? {
      assert MembersStructure(members) + rest == [COLON] + (Structure(value) + rest);
      MemberGuarded(value, rest, containers, counted, depth);
    } else {
      var others := MembersStructure(members.others) + rest;
      assert MembersStructure(members) + rest == [COLON] + (Structure(value) + ([COMMA] + others));
      MemberGuarded(value, [COMMA] + others, containers, counted, depth);
      var c, t := containers + one.containers, counted + one.containers + one.separators;
      if WithinLimits(c, t + 1, depth) {
        MembersGuarded(members.others, rest, c, t + 1, depth);
      }
      Separated(one, others, MembersShape(members.others), rest, containers, counted, depth);
    }
  }

  /** The guard lets exactly those texts pass that are not too large once decoded and whose value has so many containers,
      so many containers, commas and colons together, and nests so deep at most. */
  lemma GuardIsStructural(e: Element)
    requires ElementOk(e)
    ensures var shape := ShapeOf(e.value);
            Accepted(Text(e)) <==>
            && |Text(e)| * TextWidth(Text(e)) <= 128 * 1024 * 1024
            && shape.containers <= 50008
            && shape.containers + shape.separators <= 600128
            && shape.depth <= 64
  {
    ElementTokens(e, []);
    assert Text(e) + [] == Text(e) && Structure(e.value) + [] == Structure(e.value);
    ValueGuarded(e.value, [], 0, 0, 0);
  }

  // ---------------------------------------------------------------- the scan byte by byte

  /** The structural bytes outside strings, for a scan that looks at every byte and skips the one after a backslash. */
  function BytewiseTokens(s: seq<Byte>, quoted: bool): seq<Byte>
    decreases |s|
  {
    if s == [] then []
    else if quoted then
      if s[0] == BACKSLASH then if |s| == 1 then [] else BytewiseTokens(s[2..], true)
      else BytewiseTokens(s[1..], s[0] != QUOTE)
    else if s[0] == QUOTE then BytewiseTokens(s[1..], true)
    else if Structural(s[0]) then [s[0]] + BytewiseTokens(s[1..], false)
    else BytewiseTokens(s[1..], false)
  }

  lemma {:induction false} QuotedTokens(s: seq<Byte>)
    requires StringLength(s).Some?
    ensures BytewiseTokens(s, true) == BytewiseTokens(s[StringLength(s).value..], false)
    decreases |s|
  {
    var n := StringLength(s).value;
    if s[0] == QUOTE {
    } else if s[0] == BACKSLASH {
      QuotedTokens(s[2..]);
      assert s[2..][n - 2..] == s[n..];
    } else {
      QuotedTokens(s[1..]);
      assert s[1..][n - 1..] == s[n..];
    }
  }

  /** Where every string closes, JSON or not, both scans see the same tokens. */
  lemma {:induction false} SameTokens(s: seq<Byte>)
    requires Closes(s)
    ensures Tokens(s) == BytewiseTokens(s, false)
    decreases |s|
  {
    if s != [] {
      if s[0] == QUOTE {
        var length := StringLength(s[1..]).value;
        QuotedTokens(s[1..]);
        assert s[1..][length..] == s[1 + length..];
        SameTokens(s[1 + length..]);
      } else {
        SameTokens(s[1..]);
      }
    }
  }

  /** So on every JSON text the guard counts what a scan of every byte would. */
  lemma BothScansAgree(e: Element)
    requires ElementOk(e)
    ensures Tokens(Text(e)) == BytewiseTokens(Text(e), false)
  {
    ElementTokens(e, []);
    assert Text(e) + [] == Text(e);
    SameTokens(Text(e));
  }

  // ---------------------------------------------------------------- strings that stay open

  /** What follows the first quote whose string has no end. */
  function OpenRest(s: seq<Byte>): (rest: Option<seq<Byte>>)
    ensures rest.None? <==> Closes(s)
    ensures rest.Some? ==> StringLength(rest.value).None?
    decreases |s|
  {
    if s == [] then None
    else if s[0] == QUOTE then
      var length := StringLength(s[1..]);
      if length.None? then Some(s[1..]) else OpenRest(s[1 + length.value..])
    else OpenRest(s[1..])
  }

  /** An open string goes on to the end of the text, with no line feed behind a backslash. */
  predicate RunsOut(s: seq<Byte>)
    decreases |s|
  {
    s == [] ||
    (s[0] != QUOTE &&
     if s[0] == BACKSLASH then |s| == 1 || (s[1] != LF && RunsOut(s[2..])) else RunsOut(s[1..]))
  }

  predicate NoneStructural(s: seq<Byte>) {
    forall i | 0 <= i < |s| :: !Structural(s[i])
  }

  /** The scan byte by byte sees nothing in such a string, and the guard every structural byte: no quote in it, each
      behind its backslash, opens a string that closes. */
  lemma {:induction false} RunsOutTokens(s: seq<Byte>)
    requires RunsOut(s)
    ensures StringLength(s).None? && BytewiseTokens(s, true) == []
    ensures Tokens(s) == [] <==> NoneStructural(s)
    decreases |s|
  {
    if s != [] {
      assert s == [s[0]] + s[1..];
      if s[0] == BACKSLASH && |s| > 1 {
        assert s[1..][1..] == s[2..] && s[1..] == [s[1]] + s[2..];
        RunsOutTokens(s[2..]);
        assert Tokens(s) == Tokens(s[1..]);
        assert Tokens(s[1..]) == (if Structural(s[1]) then [s[1]] else []) + Tokens(s[2..]);
      } else {
        RunsOutTokens(s[1..]);
      }
    }
  }

  /** Where a string runs out, the scans agree exactly when no structural byte follows the quote that stays open. */
  lemma {:induction false} OpenStringAgrees(s: seq<Byte>)
    requires OpenRest(s).Some? && RunsOut(OpenRest(s).value)
    ensures Tokens(s) == BytewiseTokens(s, false) <==> NoneStructural(OpenRest(s).value)
    decreases |s|
  {
    if s[0] == QUOTE {
      var length := StringLength(s[1..]);
      if length.None? {
        RunsOutTokens(s[1..]);
      } else {
        QuotedTokens(s[1..]);
        assert s[1..][length.value..] == s[1 + length.value..];
        OpenStringAgrees(s[1 + length.value..]);
      }
    } else {
      OpenStringAgrees(s[1..]);
      if Structural(s[0]) {
        assert ([s[0]] + Tokens(s[1..]))[1..] == Tokens(s[1..]);
        assert ([s[0]] + BytewiseTokens(s[1..], false))[1..] == BytewiseTokens(s[1..], false);
      }
    }
  }

  /** A string that stays open either runs out or hides a line feed behind a backslash. */
  lemma {:induction false} OpenStrings(s: seq<Byte>)
    ensures StringLength(s).None? <==> RunsOut(s) || HidesLineFeed(s)
    ensures !(RunsOut(s) && HidesLineFeed(s))
    decreases |s|
  {
    if s != [] && s[0] != QUOTE {
      if s[0] == BACKSLASH {
        if |s| > 1 {
          OpenStrings(s[2..]);
        }
      } else {
        OpenStrings(s[1..]);
      }
    }
  }

  predicate HidesLineFeed(s: seq<Byte>)
    decreases |s|
  {
    s != [] && s[0] != QUOTE &&
    if s[0] == BACKSLASH then |s| > 1 && (s[1] == LF || HidesLineFeed(s[2..])) else HidesLineFeed(s[1..])
  }

  /** Behind a hidden line feed, where the guard takes the string for no string and the other scan reads on in it, they
      may agree with structural bytes to come, or differ. */
  lemma HiddenLineFeedEither()
    ensures var hidden: seq<Byte> := [QUOTE, BACKSLASH, LF, COMMA];
            var more: seq<Byte> := hidden + [QUOTE, COMMA, QUOTE];
            && OpenRest(hidden).Some? && HidesLineFeed(OpenRest(hidden).value)
            && Tokens(hidden) != BytewiseTokens(hidden, false)
            && OpenRest(more).Some? && HidesLineFeed(OpenRest(more).value)
            && Tokens(more) == BytewiseTokens(more, false)
  {
    var tail: seq<Byte> := [QUOTE, COMMA, QUOTE];
    Unhidden([]);
    Unhidden(tail);
    assert [QUOTE, BACKSLASH, LF, COMMA] + [] == [QUOTE, BACKSLASH, LF, COMMA];
    var two: seq<Byte> := [COMMA, QUOTE];
    var one: seq<Byte> := [QUOTE];
    assert tail[1..] == two && two[1..] == one;
    assert StringLength(one) == Some(1);
    assert StringLength(two) == Some(2);
    assert tail[1 + 2..] == [];
    assert Tokens(tail) == Tokens([]);
    assert one[1..] == [];
    assert BytewiseTokens(tail, true) == BytewiseTokens(two, false);
    assert BytewiseTokens(one, false) == BytewiseTokens([], true);
    assert BytewiseTokens(two, false) == [COMMA] + BytewiseTokens(one, false);
    assert [COMMA] + Tokens(tail) == [COMMA];
  }

  /** What both scans make of a string that hides a line feed before a comma. */
  lemma Unhidden(tail: seq<Byte>)
    ensures var s := [QUOTE, BACKSLASH, LF, COMMA] + tail;
            && OpenRest(s).Some? && HidesLineFeed(OpenRest(s).value)
            && Tokens(s) == [COMMA] + Tokens(tail) && BytewiseTokens(s, false) == BytewiseTokens(tail, true)
  {
    var s: seq<Byte> := [QUOTE, BACKSLASH, LF, COMMA] + tail;
    var inner: seq<Byte> := [BACKSLASH, LF, COMMA] + tail;
    var line: seq<Byte> := [LF, COMMA] + tail;
    var comma: seq<Byte> := [COMMA] + tail;
    assert s[1..] == inner && inner[1..] == line && inner[2..] == comma && line[1..] == comma && comma[1..] == tail;
    assert StringLength(inner) == None;
    assert Tokens(s) == Tokens(inner);
    assert Tokens(inner) == Tokens(line);
    assert Tokens(line) == Tokens(comma);
    assert Tokens(comma) == [COMMA] + Tokens(tail);
    assert BytewiseTokens(s, false) == BytewiseTokens(inner, true);
    assert BytewiseTokens(inner, true) == BytewiseTokens(comma, true);
    assert BytewiseTokens(comma, true) == BytewiseTokens(tail, true);
  }
}
