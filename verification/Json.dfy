/** A structural JSON reader and the printer of numeric projections. */
module Json {
  import opened Common

  datatype Node =
    | Object(entries: seq<Member>)
    | Array(items: seq<Node>)
    | Number(raw: string)
    | Boolean(raw: string)
    | Null(raw: string)
    | Text(raw: string)

  /** Keys stay in the form they were read in, with their quotes and escapes. */
  datatype Member = Member(key: string, value: Node)

  datatype Parsed<T> = Fail | Ok(value: T, rest: string)

  /** Elements read before, then those of the rest of the list. */
  function AddTo<T>(first: seq<T>, p: Parsed<seq<T>>): Parsed<seq<T>> {
    if p.Fail? then Fail else Ok(first + p.value, p.rest)
  }

  const MAX_DEPTH := 100

  // ---------------------------------------------------------------- tokens

  predicate Begins(s: string, c: char) {
    s != "" && s[0] == c
  }

  predicate Digit(c: char) {
    '0' <= c <= '9'
  }

  function SkipSpace(s: string): (r: string)
    ensures |r| <= |s|
  {
    if s != "" && IsSpace(s[0]) then SkipSpace(s[1..]) else s
  }

  /** Characters up to and with the closing quote; a backslash hides the character after it. */
  function StringEnd(s: string): (n: Option<nat>)
    ensures n.Some? ==> 0 < n.value <= |s|
  {
    if s == "" then None
    else if s[0] == '"' then Some(1)
    else
      var skip := if s[0] == '\\' then 2 else 1;
      if |s| < skip then None
      else
        var more := StringEnd(s[skip..]);
        if more.None? then None else Some(skip + more.value)
  }

  /** The length of the string token `s` begins with. */
  function StringToken(s: string): (n: Option<nat>)
    ensures n.Some? ==> 0 < n.value <= |s|
  {
    if !Begins(s, '"') || StringEnd(s[1..]).None? then None
    else Some(1 + StringEnd(s[1..]).value)
  }

  function DigitRun(s: string): (n: nat)
    ensures n <= |s|
  {
    if s == "" || !Digit(s[0]) then 0 else 1 + DigitRun(s[1..])
  }

  function IntegerPart(s: string): (n: nat)
    ensures n <= |s|
  {
    if Begins(s, '0') then 1 else DigitRun(s)
  }

  function FractionPart(s: string): (n: nat)
    ensures n <= |s|
  {
    if Begins(s, '.') && DigitRun(s[1..]) > 0 then 1 + DigitRun(s[1..]) else 0
  }

  function SignPart(s: string): (n: nat)
    ensures n <= |s|
  {
    if Begins(s, '+') || Begins(s, '-') then 1 else 0
  }

  function ExponentPart(s: string): (n: nat)
    ensures n <= |s|
  {
    if !Begins(s, 'e') && !Begins(s, 'E') then 0
    else
      var sign := SignPart(s[1..]);
      var run := DigitRun(s[1..][sign..]);
      if run == 0 then 0 else 1 + sign + run
  }

  function MinusPart(s: string): (n: nat)
    ensures n <= |s|
  {
    if Begins(s, '-') then 1 else 0
  }

  function FractionAndExponent(s: string): (n: nat)
    ensures n <= |s|
  {
    FractionPart(s) + ExponentPart(s[FractionPart(s)..])
  }

  function UnsignedPart(s: string): (n: nat)
    ensures n <= |s|
  {
    var whole := IntegerPart(s);
    if whole == 0 then 0 else whole + FractionAndExponent(s[whole..])
  }

  /** The length of the number token `s` begins with, or 0: section 6 of RFC 8259. */
  function NumberToken(s: string): (n: nat)
    ensures n <= |s|
  {
    var minus := MinusPart(s);
    var n := UnsignedPart(s[minus..]);
    if n == 0 then 0 else minus + n
  }

  predicate StartsWith(s: string, t: string) {
    t <= s
  }

  /** A number, `true`, `false` or `null`. */
  function Leaf(s: string): (r: Parsed<Node>)
    ensures r.Ok? ==> |r.rest| < |s|
  {
    var n := NumberToken(s);
    if n > 0 then Ok(Number(s[..n]), s[n..])
    else if StartsWith(s, "true") then Ok(Boolean("true"), s[4..])
    else if StartsWith(s, "false") then Ok(Boolean("false"), s[5..])
    else if StartsWith(s, "null") then Ok(Null("null"), s[4..])
    else Fail
  }

  // ---------------------------------------------------------------- key decoding

  function HexValue(c: char): Option<nat> {
    if '0' <= c <= '9' then Some(c as nat - '0' as nat)
    else if 'a' <= c <= 'f' then Some(c as nat - 'a' as nat + 10)
    else if 'A' <= c <= 'F' then Some(c as nat - 'A' as nat + 10)
    else None
  }

  /** The UTF-16 code units of a character. */
  function Units(c: char): seq<nat> {
    var u := c as nat;
    if u < 0x10000 then [u]
    else [0xD800 + (u - 0x10000) / 0x400, 0xDC00 + (u - 0x10000) % 0x400]
  }

  function Escaped(c: char): Option<nat> {
    match c
    case '"' => Some(0x22)
    case '\\' => Some(0x5C)
    case '/' => Some(0x2F)
    case 'b' => Some(0x08)
    case 'f' => Some(0x0C)
    case 'n' => Some(0x0A)
    case 'r' => Some(0x0D)
    case 't' => Some(0x09)
    case _ => None
  }

  /** One escape sequence behind its backslash: its code unit, and its length. */
  function Escape(s: string): (r: Option<(nat, nat)>)
    ensures r.Some? ==> 0 < r.value.1 <= |s|
  {
    if s == "" then None
    else if s[0] != 'u' then
      if Escaped(s[0]).Some? then Some((Escaped(s[0]).value, 1)) else None
    else if |s| < 5 then None
    else
      match (HexValue(s[1]), HexValue(s[2]), HexValue(s[3]), HexValue(s[4]))
      case (Some(a), Some(b), Some(c), Some(d)) => Some((((a * 16 + b) * 16 + c) * 16 + d, 5))
      case _ => None
  }

  /** The code units of a string token's inside and closing quote: section 7 of RFC 8259. */
  function DecodeInside(s: string): Option<seq<nat>> {
    if s == "" || s[0] as nat < 0x20 then None
    else if s[0] == '"' then if |s| == 1 then Some([]) else None
    else if s[0] == '\\' then
      var e := Escape(s[1..]);
      if e.None? then None
      else
        var more := DecodeInside(s[1 + e.value.1..]);
        if more.None? then None else Some([e.value.0] + more.value)
    else
      var more := DecodeInside(s[1..]);
      if more.None? then None else Some(Units(s[0]) + more.value)
  }

  /** What a key means; two keys are the same if their code units are. */
  function Decode(token: string): Option<seq<nat>> {
    if Begins(token, '"') then DecodeInside(token[1..]) else None
  }

  // ---------------------------------------------------------------- the parser

  /** A value at a nesting depth, from the front of `s`. */
  function ParseValue(s: string, depth: nat): (r: Parsed<Node>)
    ensures r.Ok? ==> |r.rest| < |s|
    decreases |s|, 0
  {
    if depth > MAX_DEPTH then Fail
    else
      var t := SkipSpace(s);
      if Begins(t, '{') then
        match ParseMembers(SkipSpace(t[1..]), depth, {})
        case Fail => Fail
        case Ok(entries, rest) => if Begins(rest, '}') then Ok(Object(entries), rest[1..]) else Fail
      else if Begins(t, '[') then
        match ParseItems(SkipSpace(t[1..]), depth)
        case Fail => Fail
        case Ok(items, rest) => if Begins(rest, ']') then Ok(Array(items), rest[1..]) else Fail
      else if Begins(t, '"') then
        match StringToken(t)
        case None => Fail
        case Some(n) => Ok(Text(t[..n]), t[n..])
      else Leaf(t)
  }

  /** The members of an object, up to its closing brace; a key seen before fails. */
  function ParseMembers(s: string, depth: nat, seen: set<seq<nat>>): (r: Parsed<seq<Member>>)
    ensures r.Ok? ==> |r.rest| <= |s|
    decreases |s|, 1
  {
    if Begins(s, '}') then Ok([], s)
    else
      match ParseMember(s, depth, seen)
      case Fail => Fail
      case Ok(m, rest) =>
        var t := SkipSpace(rest);
        if !Begins(t, ',') then Ok([m], t)
        else
          match ParseMembers(SkipSpace(t[1..]), depth, seen + {Decode(m.key).GetOr([])})
          case Fail => Fail
          case Ok(more, end) => Ok([m] + more, end)
  }

  function ParseMember(s: string, depth: nat, seen: set<seq<nat>>): (r: Parsed<Member>)
    ensures r.Ok? ==> |r.rest| < |s|
    decreases |s|, 0
  {
    match StringToken(s)
    case None => Fail
    case Some(n) =>
      var key, t := s[..n], SkipSpace(s[n..]);
      if Decode(key).None? || Decode(key).value in seen || !Begins(t, ':') then Fail
      else
        match ParseValue(t[1..], depth + 1)
        case Fail => Fail
        case Ok(v, rest) => Ok(Member(key, v), rest)
  }

  /** The items of an array; a comma may come right before the closing bracket. */
  function ParseItems(s: string, depth: nat): (r: Parsed<seq<Node>>)
    ensures r.Ok? ==> |r.rest| <= |s|
    decreases |s|, 1
  {
    if Begins(s, ']') then Ok([], s)
    else
      match ParseValue(s, depth + 1)
      case Fail => Fail
      case Ok(v, rest) =>
        var t := SkipSpace(rest);
        if !Begins(t, ',') then Ok([v], t)
        else
          match ParseItems(t[1..], depth)
          case Fail => Fail
          case Ok(more, end) => Ok([v] + more, end)
  }

  /** The whole text is one value. */
  function Parse(text: string): Option<Node> {
    match ParseValue(text, 0)
    case Fail => None
    case Ok(n, rest) => if SkipSpace(rest) == "" then Some(n) else None
  }

  // ---------------------------------------------------------------- the printer

  function Print(n: Node): string
    decreases n
  {
    match n
    case Object(entries) => "{" + PrintMembers(entries) + "}"
    case Array(items) => "[" + PrintItems(items) + "]"
    case _ => n.raw
  }

  function PrintMembers(entries: seq<Member>): string
    decreases entries
  {
    if entries == [] then ""
    else
      var first := entries[0].key + ":" + Print(entries[0].value);
      if |entries| == 1 then first else first + "," + PrintMembers(entries[1..])
  }

  function PrintItems(items: seq<Node>): string
    decreases items
  {
    if items == [] then ""
    else if |items| == 1 then Print(items[0])
    else Print(items[0]) + "," + PrintItems(items[1..])
  }

  // ---------------------------------------------------------------- the numeric projection

  predicate HasNumber(items: seq<Node>) {
    exists i :: 0 <= i < |items| && items[i].Number?
  }

  const COUNT_KEY := "\"count\""

  /** The tree a projection prints: no string members, arrays as numbers and nulls, or a count. */
  function Projection(n: Node): Node
    decreases n
  {
    match n
    case Object(entries) => Object(ProjectMembers(entries))
    case Array(items) =>
      if HasNumber(items) then Array(NumbersOnly(items))
      else Object([Member(COUNT_KEY, Number(Decimal(|items|)))])
    case _ => n
  }

  function ProjectMembers(entries: seq<Member>): seq<Member>
    decreases entries
  {
    if entries == [] then []
    else
      var more := ProjectMembers(entries[1..]);
      if entries[0].value.Text? then more
      else [Member(entries[0].key, Projection(entries[0].value))] + more
  }

  function NumberOrNull(n: Node): Node {
    if n.Number? then n else Null("null")
  }

  /** Length and positions stay. */
  function NumbersOnly(items: seq<Node>): seq<Node> {
    seq(|items|, i requires 0 <= i < |items| => NumberOrNull(items[i]))
  }

  /** `project`, which prints as it goes. */
  function Project(n: Node): string
    decreases n
  {
    match n
    case Object(entries) => "{" + ProjectedMembers(entries) + "}"
    case Array(items) =>
      if !HasNumber(items) then "{\"count\":" + Decimal(|items|) + "}"
      else "[" + ProjectedItems(items) + "]"
    case _ => n.raw
  }

  predicate AllText(entries: seq<Member>) {
    entries == [] || (entries[0].value.Text? && AllText(entries[1..]))
  }

  /** The non-string members, joined by commas. */
  function ProjectedMembers(entries: seq<Member>): string
    decreases entries
  {
    if entries == [] then ""
    else
      var more := ProjectedMembers(entries[1..]);
      if entries[0].value.Text? then more
      else
        var first := entries[0].key + ":" + Project(entries[0].value);
        if AllText(entries[1..]) then first else first + "," + more
  }

  function ProjectedItems(items: seq<Node>): string {
    if items == [] then ""
    else
      var first := if items[0].Number? then items[0].raw else "null";
      if |items| == 1 then first else first + "," + ProjectedItems(items[1..])
  }
}
