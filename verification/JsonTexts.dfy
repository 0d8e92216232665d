/** Reading is exact: a text is read as a tree if and only if it is one way of writing it. */
module JsonTexts {
  import opened Common
  import opened Json
  import opened JsonTokens
  import opened JsonTheorems

  // ---------------------------------------------------------------- ways of writing a tree

  /** A value with the spaces in front of it. */
  datatype Styled = Styled(before: string, body: Body)

  /** A token; or a list with spaces behind its opening, and what its end looks like. */
  datatype Body =
    | Token(node: Node)
    | Braces(open: string, members: seq<StyledMember>, comma: Option<string>)
    | Brackets(open: string, items: seq<StyledItem>, trailing: bool)

  /** A member with the spaces in front of its colon, behind its value, and behind the comma after it. */
  datatype StyledMember = StyledMember(key: string, colon: string, value: Styled, after: string, next: string)

  /** An item with the spaces behind it. */
  datatype StyledItem = StyledItem(value: Styled, after: string)

  /** The tree itself. */
  function Erase(x: Styled): Node
    decreases x
  {
    match x.body
    case Token(n) => n
    case Braces(_, members, _) => Object(EraseMembers(members))
    case Brackets(_, items, _) => Array(EraseItems(items))
  }

  function EraseMembers(ms: seq<StyledMember>): (r: seq<Member>)
    ensures |r| == |ms|
    decreases ms
  {
    if ms == [] then [] else [Member(ms[0].key, Erase(ms[0].value))] + EraseMembers(ms[1..])
  }

  function EraseItems(xs: seq<StyledItem>): (r: seq<Node>)
    ensures |r| == |xs|
    decreases xs
  {
    if xs == [] then [] else [Erase(xs[0].value)] + EraseItems(xs[1..])
  }

  /** The text, in front of `tail`. */
  function Write(x: Styled, tail: string): string
    decreases x
  {
    x.before +
    match x.body
    case Token(n) => (if n.Object? || n.Array? then "" else n.raw) + tail
    case Braces(open, members, comma) => ['{'] + (open + WriteMembers(members, comma, "}" + tail))
    case Brackets(open, items, trailing) => ['['] + (open + WriteItems(items, trailing, "]" + tail))
  }

  /** Behind the last member the list may end, or have one more comma and spaces. */
  function WriteMembers(ms: seq<StyledMember>, comma: Option<string>, tail: string): string
    decreases ms
  {
    if ms == [] then tail
    else
      var rest :=
        if |ms| > 1 then [','] + (ms[0].next + WriteMembers(ms[1..], comma, tail))
        else if comma.Some? then [','] + (comma.value + tail)
        else tail;
      ms[0].key + (ms[0].colon + ([':'] + Write(ms[0].value, ms[0].after + rest)))
  }

  function WriteItems(xs: seq<StyledItem>, trailing: bool, tail: string): string
    decreases xs
  {
    if xs == [] then tail
    else
      var rest :=
        if |xs| > 1 then [','] + WriteItems(xs[1..], trailing, tail)
        else if trailing then [','] + tail
        else tail;
      Write(xs[0].value, xs[0].after + rest)
  }

  predicate Spaces(w: string) {
    forall i :: 0 <= i < |w| ==> IsSpace(w[i])
  }

  /** Spaces are spaces, tokens are tokens, and the keys of an object mean different things. */
  predicate Proper(x: Styled)
    decreases x
  {
    && Spaces(x.before)
    && match x.body
       case Token(n) => !n.Object? && !n.Array? && Lexical(n)
       case Braces(open, members, comma) =>
         && Spaces(open) && ProperMembers(members, {})
         && (comma.Some? ==> members != [] && Spaces(comma.value))
       case Brackets(open, items, trailing) =>
         && Spaces(open) && ProperItems(items)
         && (if items == [] then !trailing else items[0].value.before == "")
  }

  predicate ProperMembers(ms: seq<StyledMember>, seen: set<seq<nat>>)
    decreases ms
  {
    ms != [] ==>
      && KeyFits(ms[0].key, seen) && Spaces(ms[0].colon) && Proper(ms[0].value)
      && Spaces(ms[0].after) && Spaces(ms[0].next)
      && ProperMembers(ms[1..], seen + {Decode(ms[0].key).GetOr([])})
  }

  predicate ProperItems(xs: seq<StyledItem>)
    decreases xs
  {
    xs != [] ==> Proper(xs[0].value) && Spaces(xs[0].after) && ProperItems(xs[1..])
  }

  // ---------------------------------------------------------------- spaces

  lemma {:induction false} SkipSpaces(w: string, t: string)
    requires Spaces(w)
    ensures SkipSpace(w + t) == SkipSpace(t)
  {
    if w == "" {
      assert w + t == t;
    } else {
      assert (w + t)[1..] == w[1..] + t;
      SkipSpaces(w[1..], t);
    }
  }

  /** What a text begins with, behind its spaces. */
  lemma {:induction false} LeadingSpaces(s: string) returns (w: string)
    ensures Spaces(w) && s == w + SkipSpace(s)
    ensures SkipSpace(s) == "" || !IsSpace(SkipSpace(s)[0])
  {
    hide IsSpace;
    if s != "" && IsSpace(s[0]) {
      var more := LeadingSpaces(s[1..]);
      w := [s[0]] + more;
      assert s == [s[0]] + s[1..];
    } else {
      w := "";
    }
  }

  lemma {:induction false} SpacesStop(w: string, t: string)
    requires Spaces(w) && Delimits(t)
    ensures Stops(w + t) && SkipSpace(w + t) == t
  {
    SkipSpaces(w, t);
    DelimiterStays(t);
    if w != "" {
      assert (w + t)[0] == w[0];
    } else {
      assert w + t == t;
    }
  }

  // ---------------------------------------------------------------- every way of writing is read

  /** What a body begins with. */
  lemma {:induction false} BodyBegins(x: Styled, tail: string)
    requires Proper(x) && x.before == ""
    ensures var s := Write(x, tail);
            && s != "" && SkipSpace(s) == s && !Begins(s, ']') && !Begins(s, '}')
            && (Begins(s, '{') <==> x.body.Braces?) && (Begins(s, '[') <==> x.body.Brackets?)
            && (Begins(s, '"') <==> x.body.Token? && x.body.node.Text?)
  {
    hide LexicalMembers, LexicalItems, ProperMembers, ProperItems, WriteMembers, WriteItems;
    match x.body {
      case Token(n) =>
        PrintBegins(n, tail);
        if n.Number? {
          NumberBegins(n.raw);
        }
        assert (n.raw + tail)[0] == n.raw[0];
        assert "" + (n.raw + tail) == n.raw + tail;
      case Braces(open, members, comma) =>
        var inside := open + WriteMembers(members, comma, "}" + tail);
        assert "" + (['{'] + inside) == ['{'] + inside;
      case Brackets(open, items, trailing) =>
        var inside := open + WriteItems(items, trailing, "]" + tail);
        assert "" + (['['] + inside) == ['['] + inside;
    }
  }

  lemma {:induction false} WithoutBefore(x: Styled, tail: string)
    requires Proper(x)
    ensures Write(x, tail) == x.before + Write(x.(before := ""), tail)
    ensures SkipSpace(Write(x, tail)) == Write(x.(before := ""), tail)
    ensures Proper(x.(before := "")) && Erase(x.(before := "")) == Erase(x)
  {
    hide ProperMembers, ProperItems, WriteMembers, WriteItems, EraseMembers, EraseItems, Lexical, SkipSpace;
    var bare := x.(before := "");
    var body := match x.body
      case Token(n) => (if n.Object? || n.Array? then "" else n.raw) + tail
      case Braces(open, members, comma) => ['{'] + (open + WriteMembers(members, comma, "}" + tail))
      case Brackets(open, items, trailing) => ['['] + (open + WriteItems(items, trailing, "]" + tail));
    assert Write(bare, tail) == "" + body == body;
    BodyBegins(bare, tail);
    SkipSpaces(x.before, body);
  }

  lemma {:induction false} SkipTwice(s: string)
    ensures SkipSpace(SkipSpace(s)) == SkipSpace(s)
  {
    if s != "" && IsSpace(s[0]) {
      SkipTwice(s[1..]);
    }
  }

  lemma {:induction false} ValueSkips(s: string, depth: nat)
    ensures ParseValue(s, depth) == ParseValue(SkipSpace(s), depth)
  {
    SkipTwice(s);
  }

  /** One member with the spaces behind it, and the list that goes on behind a comma. */
  lemma {:induction false} MembersNext(s: string, depth: nat, seen: set<seq<nat>>, after: string, rest: string)
    requires !Begins(s, '}') && Spaces(after) && Delimits(rest)
    requires ParseMember(s, depth, seen).Ok? ==> ParseMember(s, depth, seen).rest == after + rest
    ensures ParseMembers(s, depth, seen)
         == match ParseMember(s, depth, seen)
            case Fail => Fail
            case Ok(m, _) =>
              if !Begins(rest, ',') then Ok([m], rest)
              else AddTo([m], ParseMembers(SkipSpace(rest[1..]), depth, seen + {Decode(m.key).GetOr([])}))
  {
    hide ParseMember;
    SpacesStop(after, rest);
  }

  lemma {:induction false} ItemsNext(s: string, depth: nat, after: string, rest: string)
    requires !Begins(s, ']') && Spaces(after) && Delimits(rest)
    requires ParseValue(s, depth + 1).Ok? ==> ParseValue(s, depth + 1).rest == after + rest
    ensures ParseItems(s, depth)
         == match ParseValue(s, depth + 1)
            case Fail => Fail
            case Ok(v, _) => if !Begins(rest, ',') then Ok([v], rest) else AddTo([v], ParseItems(rest[1..], depth))
  {
    hide ParseValue;
    SpacesStop(after, rest);
  }

  /** A key, spaces, a colon, and a value. */
  lemma {:induction false} MemberReads(
    key: string, colon: string, value: string, depth: nat, seen: set<seq<nat>>, r: Parsed<Node>)
    requires KeyFits(key, seen) && Spaces(colon) && r == ParseValue(value, depth + 1)
    ensures ParseMember(key + (colon + ([':'] + value)), depth, seen)
         == if r.Fail? then Fail else Ok(Member(key, r.value), r.rest)
  {
    hide ParseValue;
    var behind := colon + ([':'] + value);
    StringStops(key, behind);
    CutToken(key, behind);
    SkipSpaces(colon, [':'] + value);
    assert ([':'] + value)[1..] == value;
  }

  /** What stands behind the value of the first member. */
  function RestOfMembers(ms: seq<StyledMember>, comma: Option<string>, tail: string): string
    requires ms != []
  {
    if |ms| > 1 then [','] + (ms[0].next + WriteMembers(ms[1..], comma, tail))
    else if comma.Some? then [','] + (comma.value + tail)
    else tail
  }

  function RestOfItems(xs: seq<StyledItem>, trailing: bool, tail: string): string
    requires xs != []
  {
    if |xs| > 1 then [','] + WriteItems(xs[1..], trailing, tail)
    else if trailing then [','] + tail
    else tail
  }

  /** Every way of writing a tree is read as that tree, exactly if it is not nested too deep. */
  lemma {:induction false} WrittenIsRead(x: Styled, tail: string, depth: nat)
    requires Proper(x) && Stops(tail)
    ensures ParseValue(Write(x, tail), depth) == if Fits(Erase(x), depth) then Ok(Erase(x), tail) else Fail
    decreases x, 0
  {
    hide ParseValue, SkipSpace, Lexical, Fits;
    WithoutBefore(x, tail);
    ValueSkips(Write(x, tail), depth);
    var bare := x.(before := "");
    match x.body {
      case Token(n) =>
        ReadsBack(n, tail, depth);
        TokenWrites(bare, tail);
      case Braces(open, members, comma) =>
        MembersRead(members, comma, "}" + tail, depth, {});
        BracesRead(bare, tail, depth);
      case Brackets(open, items, trailing) =>
        ItemsRead(items, trailing, "]" + tail, depth);
        BracketsRead(bare, tail, depth);
    }
  }

  lemma {:induction false} TokenWrites(x: Styled, tail: string)
    requires x.before == "" && x.body.Token? && !x.body.node.Object? && !x.body.node.Array?
    ensures Write(x, tail) == Print(x.body.node) + tail && Erase(x) == x.body.node
  {
    assert "" + (x.body.node.raw + tail) == x.body.node.raw + tail;
  }

  lemma {:induction false} BracesRead(x: Styled, tail: string, depth: nat)
    requires Proper(x) && x.before == "" && x.body.Braces?
    requires var w := WriteMembers(x.body.members, x.body.comma, "}" + tail);
             && SkipSpace(w) == w
             && ParseMembers(w, depth, {})
                == if MembersFit(EraseMembers(x.body.members), depth + 1)
                   then Ok(EraseMembers(x.body.members), "}" + tail) else Fail
    ensures ParseValue(Write(x, tail), depth) == if Fits(Erase(x), depth) then Ok(Erase(x), tail) else Fail
  {
    hide ParseMembers, WriteMembers, MembersFit, EraseMembers, ProperMembers, SkipSpace;
    var inside := x.body.open + WriteMembers(x.body.members, x.body.comma, "}" + tail);
    BodyBegins(x, tail);
    SkipSpaces(x.body.open, WriteMembers(x.body.members, x.body.comma, "}" + tail));
    assert Write(x, tail) == "" + (['{'] + inside) == ['{'] + inside;
    assert (['{'] + inside)[1..] == inside && ("}" + tail)[1..] == tail;
  }

  lemma {:induction false} BracketsRead(x: Styled, tail: string, depth: nat)
    requires Proper(x) && x.before == "" && x.body.Brackets?
    requires ParseItems(WriteItems(x.body.items, x.body.trailing, "]" + tail), depth)
          == if ItemsFit(EraseItems(x.body.items), depth + 1)
             then Ok(EraseItems(x.body.items), "]" + tail) else Fail
    ensures ParseValue(Write(x, tail), depth) == if Fits(Erase(x), depth) then Ok(Erase(x), tail) else Fail
  {
    hide ParseItems, ItemsFit, EraseItems, ProperItems, SkipSpace;
    var w := WriteItems(x.body.items, x.body.trailing, "]" + tail);
    BodyBegins(x, tail);
    ItemsBegin(x.body.items, x.body.trailing, "]" + tail);
    SkipSpaces(x.body.open, w);
    assert Write(x, tail) == "" + (['['] + (x.body.open + w)) == ['['] + (x.body.open + w);
    assert (['['] + (x.body.open + w))[1..] == x.body.open + w && ("]" + tail)[1..] == tail;
  }

  /** No space in front of the first item, or of the closing bracket. */
  lemma {:induction false} ItemsBegin(xs: seq<StyledItem>, trailing: bool, tail: string)
    requires ProperItems(xs) && Begins(tail, ']') && (xs != [] ==> xs[0].value.before == "")
    ensures SkipSpace(WriteItems(xs, trailing, tail)) == WriteItems(xs, trailing, tail)
  {
    if xs != [] {
      BodyBegins(xs[0].value, xs[0].after + RestOfItems(xs, trailing, tail));
    }
  }

  lemma {:induction false} MembersRead(
    ms: seq<StyledMember>, comma: Option<string>, tail: string, depth: nat, seen: set<seq<nat>>)
    requires ProperMembers(ms, seen) && (comma.Some? ==> ms != [] && Spaces(comma.value)) && Begins(tail, '}')
    ensures SkipSpace(WriteMembers(ms, comma, tail)) == WriteMembers(ms, comma, tail)
    ensures ParseMembers(WriteMembers(ms, comma, tail), depth, seen)
         == if MembersFit(EraseMembers(ms), depth + 1) then Ok(EraseMembers(ms), tail) else Fail
    decreases ms, 1
  {
    if ms == [] {
      NoMembers(tail, depth, seen);
    } else {
      var m, rest := ms[0], RestOfMembers(ms, comma, tail);
      hide Lexical, Decode, Fits, ParseMembers, ParseValue, MembersFit, SkipSpace, Write, Erase;
      SpacesStop(m.after, rest);
      WrittenIsRead(m.value, m.after + rest, depth + 1);
      FirstMemberRead(ms, comma, tail, depth, seen);
      MembersFitUnfold(EraseMembers(ms), depth + 1);
      assert EraseMembers(ms)[1..] == EraseMembers(ms[1..]);
      if |ms| > 1 {
        var more := seen + {Decode(m.key).GetOr([])};
        MembersRead(ms[1..], comma, tail, depth, more);
        SkipSpaces(m.next, WriteMembers(ms[1..], comma, tail));
        assert rest[1..] == m.next + WriteMembers(ms[1..], comma, tail);
      } else {
        LastMember(comma, tail, rest, depth, seen + {Decode(m.key).GetOr([])});
        assert ms[1..] == [] && EraseMembers(ms) == [Member(m.key, Erase(m.value))];
      }
    }
  }

  /** A list whose first member is read as it should be. */
  lemma {:induction false} FirstMemberRead(
    ms: seq<StyledMember>, comma: Option<string>, tail: string, depth: nat, seen: set<seq<nat>>)
    requires ms != [] && ProperMembers(ms, seen) && Begins(tail, '}')
    requires var m, rest := ms[0], RestOfMembers(ms, comma, tail);
             ParseValue(Write(m.value, m.after + rest), depth + 1)
             == if Fits(Erase(m.value), depth + 1) then Ok(Erase(m.value), m.after + rest) else Fail
    ensures var m, rest := ms[0], RestOfMembers(ms, comma, tail);
            ParseMembers(WriteMembers(ms, comma, tail), depth, seen)
            == if !Fits(Erase(m.value), depth + 1) then Fail
               else if !Begins(rest, ',') then Ok([Member(m.key, Erase(m.value))], rest)
               else AddTo([Member(m.key, Erase(m.value))],
                          ParseMembers(SkipSpace(rest[1..]), depth, seen + {Decode(m.key).GetOr([])}))
    ensures SkipSpace(WriteMembers(ms, comma, tail)) == WriteMembers(ms, comma, tail)
  {
    hide ParseMembers, ParseMember, ParseValue, Lexical, Fits, Decode, Write, Erase;
    var m, rest := ms[0], RestOfMembers(ms, comma, tail);
    var value := Write(m.value, m.after + rest);
    var s := m.key + (m.colon + ([':'] + value));
    assert WriteMembers(ms, comma, tail) == s && s[0] == m.key[0] == '"';
    MemberReads(m.key, m.colon, value, depth, seen, ParseValue(value, depth + 1));
    MembersNext(s, depth, seen, m.after, rest);
  }

  /** The end of an object, with or without one more comma. */
  lemma {:induction false} LastMember(
    comma: Option<string>, tail: string, rest: string, depth: nat, seen: set<seq<nat>>)
    requires Begins(tail, '}') && (comma.Some? ==> Spaces(comma.value))
    requires rest == if comma.Some? then [','] + (comma.value + tail) else tail
    ensures Begins(rest, ',') <==> comma.Some?
    ensures comma.Some? ==> ParseMembers(SkipSpace(rest[1..]), depth, seen) == Ok([], tail)
  {
    if comma.Some? {
      assert rest[1..] == comma.value + tail;
      SkipSpaces(comma.value, tail);
      NoMembers(tail, depth, seen);
    }
  }

  lemma {:induction false} ItemsRead(xs: seq<StyledItem>, trailing: bool, tail: string, depth: nat)
    requires ProperItems(xs) && (trailing ==> xs != []) && Begins(tail, ']')
    ensures ParseItems(WriteItems(xs, trailing, tail), depth)
         == if ItemsFit(EraseItems(xs), depth + 1) then Ok(EraseItems(xs), tail) else Fail
    decreases xs, 1
  {
    if xs != [] {
      var x, rest := xs[0], RestOfItems(xs, trailing, tail);
      hide Lexical, Fits, ParseValue, SkipSpace, Write, Erase;
      var s := Write(x.value, x.after + rest);
      SpacesStop(x.after, rest);
      WrittenIsRead(x.value, x.after + rest, depth + 1);
      NotClosed(x.value, x.after + rest);
      ItemsNext(s, depth, x.after, rest);
      assert EraseItems(xs)[1..] == EraseItems(xs[1..]);
      if |xs| > 1 {
        ItemsRead(xs[1..], trailing, tail, depth);
        assert rest[1..] == WriteItems(xs[1..], trailing, tail);
      } else {
        assert xs[1..] == [] && EraseItems(xs) == [Erase(x.value)];
        assert trailing ==> rest[1..] == tail;
      }
    }
  }

  lemma {:induction false} NotClosed(x: Styled, tail: string)
    requires Proper(x)
    ensures !Begins(Write(x, tail), ']')
  {
    WithoutBefore(x, tail);
    BodyBegins(x.(before := ""), tail);
    if x.before != "" {
      assert Write(x, tail)[0] == x.before[0];
    } else {
      assert x.(before := "") == x;
    }
  }

  // ---------------------------------------------------------------- whatever is read was written so

  lemma {:induction false} ReadAsWritten(s: string, depth: nat) returns (x: Styled)
    requires ParseValue(s, depth).Ok?
    ensures Proper(x) && Erase(x) == ParseValue(s, depth).value && s == Write(x, ParseValue(s, depth).rest)
    decreases |s|, 0
  {
    hide ParseMembers, ParseItems, StringToken, Leaf, Lexical, SkipSpace, ProperMembers, ProperItems,
         WriteMembers, WriteItems;
    var before := LeadingSpaces(s);
    var t, rest := SkipSpace(s), ParseValue(s, depth).rest;
    if Begins(t, '{') {
      var open := LeadingSpaces(t[1..]);
      var ms, comma := MembersAsWritten(SkipSpace(t[1..]), depth, {});
      x := Styled(before, Braces(open, ms, comma));
      var end := ParseMembers(SkipSpace(t[1..]), depth, {}).rest;
      assert end == "}" + rest && t == ['{'] + t[1..];
    } else if Begins(t, '[') {
      var open := LeadingSpaces(t[1..]);
      SkipTwice(t[1..]);
      var xs, trailing := ItemsAsWritten(SkipSpace(t[1..]), depth);
      x := Styled(before, Brackets(open, xs, trailing));
      var end := ParseItems(SkipSpace(t[1..]), depth).rest;
      assert end == "]" + rest && t == ['['] + t[1..];
    } else {
      ReadIsSound(s, depth);
      x := Styled(before, Token(ParseValue(s, depth).value));
      TokenRead(t, s, depth);
    }
  }

  lemma {:induction false} TokenRead(t: string, s: string, depth: nat)
    requires t == SkipSpace(s) && ParseValue(s, depth).Ok? && !Begins(t, '{') && !Begins(t, '[')
    ensures var n := ParseValue(s, depth).value;
            !n.Object? && !n.Array? && t == n.raw + ParseValue(s, depth).rest
  {
    if Begins(t, '"') {
      var n := StringToken(t).value;
      assert t == t[..n] + t[n..];
    } else {
      LeafCut(t);
    }
  }

  lemma {:induction false} LeafCut(t: string)
    requires Leaf(t).Ok?
    ensures !Leaf(t).value.Object? && !Leaf(t).value.Array? && t == Leaf(t).value.raw + Leaf(t).rest
  {
    hide NumberToken;
    var n := NumberToken(t);
    if n > 0 {
      assert t == t[..n] + t[n..];
    } else {
      var k := |Leaf(t).value.raw|;
      assert Leaf(t).value.raw <= t && t == t[..k] + t[k..];
    }
  }

  /** Spaces behind a value, and what follows them. */
  lemma {:induction false} MembersAsWritten(s: string, depth: nat, seen: set<seq<nat>>)
    returns (ms: seq<StyledMember>, comma: Option<string>)
    requires ParseMembers(s, depth, seen).Ok?
    ensures ProperMembers(ms, seen) && (comma.Some? ==> ms != [] && Spaces(comma.value))
    ensures EraseMembers(ms) == ParseMembers(s, depth, seen).value
    ensures s == WriteMembers(ms, comma, ParseMembers(s, depth, seen).rest)
    decreases |s|, 1
  {
    hide ParseMember, Decode, SkipSpace, Proper, Write, Erase, Lexical;
    ms, comma := [], None;
    if !Begins(s, '}') {
      var parsed := ParseMember(s, depth, seen);
      var key, colon, x := MemberAsWritten(s, depth, seen);
      var after := LeadingSpaces(parsed.rest);
      var t := SkipSpace(parsed.rest);
      MemberIsSound(s, depth, seen);
      var m := StyledMember(key, colon, x, after, "");
      if !Begins(t, ',') {
        ms := [m];
        assert ms[1..] == [];
      } else {
        var more := seen + {Decode(key).GetOr([])};
        var next := LeadingSpaces(t[1..]);
        var rest, last := MembersAsWritten(SkipSpace(t[1..]), depth, more);
        assert t == [','] + (next + SkipSpace(t[1..]));
        if rest == [] {
          ms, comma := [m], Some(next);
          assert ms[1..] == [];
        } else {
          ms, comma := [m.(next := next)] + rest, last;
          assert ms[1..] == rest;
        }
      }
    }
  }

  lemma {:induction false} MemberAsWritten(s: string, depth: nat, seen: set<seq<nat>>)
    returns (key: string, colon: string, x: Styled)
    requires ParseMember(s, depth, seen).Ok?
    ensures var parsed := ParseMember(s, depth, seen);
            && Spaces(colon) && Proper(x) && parsed.value == Member(key, Erase(x))
            && s == key + (colon + ([':'] + Write(x, parsed.rest)))
    decreases |s|, 0
  {
    hide StringToken, Decode, ParseValue, Proper, Write, Erase, SkipSpace;
    var n := StringToken(s).value;
    key := s[..n];
    colon := LeadingSpaces(s[n..]);
    var t := SkipSpace(s[n..]);
    x := ReadAsWritten(t[1..], depth + 1);
    assert t == [':'] + t[1..] && s == s[..n] + s[n..];
  }

  lemma {:induction false} ItemsAsWritten(s: string, depth: nat) returns (xs: seq<StyledItem>, trailing: bool)
    requires ParseItems(s, depth).Ok?
    ensures ProperItems(xs) && (xs == [] ==> !trailing) && EraseItems(xs) == ParseItems(s, depth).value
    ensures s == WriteItems(xs, trailing, ParseItems(s, depth).rest)
    ensures xs != [] && s == SkipSpace(s) ==> xs[0].value.before == ""
    decreases |s|, 1
  {
    hide ParseValue, SkipSpace, Proper, Write, Erase;
    xs, trailing := [], false;
    if !Begins(s, ']') {
      var parsed := ParseValue(s, depth + 1);
      var x := ReadAsWritten(s, depth + 1);
      var after := LeadingSpaces(parsed.rest);
      var t := SkipSpace(parsed.rest);
      if s == SkipSpace(s) {
        NoSpaceBefore(x, parsed.rest);
      }
      if !Begins(t, ',') {
        xs := [StyledItem(x, after)];
        assert xs[1..] == [];
      } else {
        var rest, last := ItemsAsWritten(t[1..], depth);
        assert t == [','] + t[1..];
        xs, trailing := [StyledItem(x, after)] + rest, rest == [] || last;
        assert xs[1..] == rest;
      }
    }
  }

  lemma {:induction false} NoSpaceBefore(x: Styled, tail: string)
    requires Proper(x) && SkipSpace(Write(x, tail)) == Write(x, tail)
    ensures x.before == ""
  {
    WithoutBefore(x, tail);
    var body := Write(x.(before := ""), tail);
    assert |x.before + body| == |x.before| + |body|;
  }

  // ---------------------------------------------------------------- the reader, exactly

  /** `text` is a way of writing `n`, with spaces around. */
  ghost predicate Writes(x: Styled, n: Node, text: string) {
    exists w :: Spaces(w) && Proper(x) && Erase(x) == n && text == Write(x, w)
  }

  /**
   * A text is read as a tree if and only if it is a way of writing it, with any spaces between
   * its tokens and perhaps a comma before a closing bracket, and the tree is nested at most 100 deep.
   */
  lemma {:induction false} ReadExactly(text: string, n: Node)
    ensures Parse(text) == Some(n) <==> Fits(n, 0) && exists x :: Writes(x, n, text)
  {
    hide ParseValue, Proper, Erase, Write, Fits;
    if Parse(text) == Some(n) {
      ReadIsSound(text, 0);
      var x := ReadAsWritten(text, 0);
      var w := LeadingSpaces(ParseValue(text, 0).rest);
      assert w + "" == w;
      assert Writes(x, n, text);
    } else if Fits(n, 0) && exists x :: Writes(x, n, text) {
      var x :| Writes(x, n, text);
      var w :| Spaces(w) && Proper(x) && Erase(x) == n && text == Write(x, w);
      assert w + "" == w;
      SpacesStop(w, "");
      WrittenIsRead(x, w, 0);
    }
  }
}
