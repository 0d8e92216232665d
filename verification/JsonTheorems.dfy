/** The reader and the projection printer belong together: round trip, soundness, idempotence. */
module JsonTheorems {
  import opened Common
  import opened Json
  import opened JsonGrammar
  import opened JsonTokens

  /** Every token is one the reader accepts as a whole, and keys mean different things. */
  predicate Lexical(n: Node)
    decreases n
  {
    match n
    case Object(entries) => LexicalMembers(entries, {})
    case Array(items) => LexicalItems(items)
    case Number(raw) => raw != "" && NumberToken(raw) == |raw|
    case Boolean(raw) => raw == "true" || raw == "false"
    case Null(raw) => raw == "null"
    case Text(raw) => StringToken(raw) == Some(|raw|)
  }

  predicate KeyFits(key: string, seen: set<seq<nat>>) {
    StringToken(key) == Some(|key|) && Decode(key).Some? && Decode(key).value !in seen
  }

  predicate LexicalMembers(entries: seq<Member>, seen: set<seq<nat>>)
    decreases entries
  {
    entries != [] ==>
      && KeyFits(entries[0].key, seen) && Lexical(entries[0].value)
      && LexicalMembers(entries[1..], seen + {Decode(entries[0].key).GetOr([])})
  }

  predicate LexicalItems(items: seq<Node>)
    decreases items
  {
    items != [] ==> Lexical(items[0]) && LexicalItems(items[1..])
  }

  /** Nested no deeper than the reader goes, starting at `depth`. */
  predicate Fits(n: Node, depth: nat)
    decreases n
  {
    depth <= MAX_DEPTH &&
    match n
    case Object(entries) => MembersFit(entries, depth + 1)
    case Array(items) => ItemsFit(items, depth + 1)
    case _ => true
  }

  predicate MembersFit(entries: seq<Member>, depth: nat)
    decreases entries
  {
    entries != [] ==> Fits(entries[0].value, depth) && MembersFit(entries[1..], depth)
  }

  predicate ItemsFit(items: seq<Node>, depth: nat)
    decreases items
  {
    items != [] ==> Fits(items[0], depth) && ItemsFit(items[1..], depth)
  }

  // ---------------------------------------------------------------- what the reader returns

  lemma {:induction false} LeafIsSound(s: string)
    requires Leaf(s).Ok?
    ensures Lexical(Leaf(s).value) && !Leaf(s).value.Object? && !Leaf(s).value.Array?
  {
    if NumberToken(s) > 0 {
      NumberCut(s);
    }
  }

  /** Whatever the reader returns is lexical and within its depth. */
  lemma {:induction false} ReadIsSound(s: string, depth: nat)
    requires ParseValue(s, depth).Ok?
    ensures Lexical(ParseValue(s, depth).value) && Fits(ParseValue(s, depth).value, depth)
    decreases |s|, 0
  {
    var t := SkipSpace(s);
    if Begins(t, '{') {
      MembersAreSound(SkipSpace(t[1..]), depth, {});
    } else if Begins(t, '[') {
      ItemsAreSound(SkipSpace(t[1..]), depth);
    } else if Begins(t, '"') {
      StringCut(t);
    } else {
      LeafIsSound(t);
    }
  }

  lemma {:induction false} MembersAreSound(s: string, depth: nat, seen: set<seq<nat>>)
    requires ParseMembers(s, depth, seen).Ok?
    ensures LexicalMembers(ParseMembers(s, depth, seen).value, seen)
    ensures MembersFit(ParseMembers(s, depth, seen).value, depth + 1)
    decreases |s|, 1
  {
    if !Begins(s, '}') {
      MemberIsSound(s, depth, seen);
      var m := ParseMember(s, depth, seen);
      var t := SkipSpace(m.rest);
      if Begins(t, ',') {
        var more := seen + {Decode(m.value.key).GetOr([])};
        MembersAreSound(SkipSpace(t[1..]), depth, more);
        var rest := ParseMembers(SkipSpace(t[1..]), depth, more).value;
        assert ([m.value] + rest)[1..] == rest;
      }
    }
  }

  lemma {:induction false} MemberIsSound(s: string, depth: nat, seen: set<seq<nat>>)
    requires ParseMember(s, depth, seen).Ok?
    ensures var m := ParseMember(s, depth, seen).value;
            KeyFits(m.key, seen) && Lexical(m.value) && Fits(m.value, depth + 1)
    decreases |s|, 0
  {
    StringCut(s);
    var t := SkipSpace(s[StringToken(s).value..]);
    ReadIsSound(t[1..], depth + 1);
  }

  lemma {:induction false} ItemsAreSound(s: string, depth: nat)
    requires ParseItems(s, depth).Ok?
    ensures LexicalItems(ParseItems(s, depth).value) && ItemsFit(ParseItems(s, depth).value, depth + 1)
    decreases |s|, 1
  {
    if !Begins(s, ']') {
      ReadIsSound(s, depth + 1);
      var v := ParseValue(s, depth + 1);
      var t := SkipSpace(v.rest);
      if Begins(t, ',') {
        ItemsAreSound(t[1..], depth);
        var rest := ParseItems(t[1..], depth).value;
        assert ([v.value] + rest)[1..] == rest;
      }
    }
  }

  // ---------------------------------------------------------------- reading what was printed

  /** A printed value begins with a character that tells its kind, and is no space. */
  lemma {:induction false} PrintFirst(n: Node)
    requires Lexical(n)
    ensures Print(n) != ""
    ensures var c := Print(n)[0];
            && !IsSpace(c) && c != ']'
            && (c == '{' <==> n.Object?) && (c == '[' <==> n.Array?) && (c == '"' <==> n.Text?)
  {
    hide LexicalMembers, LexicalItems, PrintMembers, PrintItems, NumberToken;
    if n.Number? {
      NumberBegins(n.raw);
    }
  }

  /** So there is no space to skip in front of it. */
  lemma {:induction false} PrintBegins(n: Node, tail: string)
    requires Lexical(n)
    ensures Print(n) != "" && SkipSpace(Print(n) + tail) == Print(n) + tail
    ensures !Begins(Print(n) + tail, ']')
    ensures Begins(Print(n) + tail, '{') <==> n.Object?
    ensures Begins(Print(n) + tail, '[') <==> n.Array?
    ensures Begins(Print(n) + tail, '"') <==> n.Text?
  {
    hide Print, Lexical, IsSpace;
    PrintFirst(n);
    assert (Print(n) + tail)[0] == Print(n)[0];
  }

  lemma {:induction false} NumberBegins(raw: string)
    requires raw != "" && NumberToken(raw) == |raw|
    ensures Digit(raw[0]) || raw[0] == '-'
  {
    if raw[0] != '-' {
      assert raw[0..] == raw;
    }
  }

  lemma {:induction false} DelimiterStays(tail: string)
    requires Delimits(tail)
    ensures SkipSpace(tail) == tail
  {
  }

  lemma {:induction false} LetterIsNoNumber(s: string)
    requires s != "" && s[0] in "tfn"
    ensures NumberToken(s) == 0
  {
    assert s[0..] == s;
  }

  lemma {:induction false} LeafReads(n: Node, tail: string)
    requires Lexical(n) && (n.Number? || n.Boolean? || n.Null?) && Stops(tail)
    ensures Leaf(n.raw + tail) == Ok(n, tail)
  {
    hide NumberToken;
    var s := n.raw + tail;
    assert s[..|n.raw|] == n.raw && s[|n.raw|..] == tail;
    if n.Number? {
      NumberStops(n.raw, tail);
    } else {
      assert s[0] == n.raw[0] && s[0] in "tfn";
      LetterIsNoNumber(s);
      assert n.raw <= s;
    }
  }

  lemma {:induction false} Unwrap(c: char, inside: string, tail: string)
    ensures ([c] + inside + tail)[1..] == inside + tail
  {
  }

  /** What follows the first member, and the first item, of a printed list. */
  function MembersRest(entries: seq<Member>, end: string): string
    requires entries != []
  {
    if |entries| == 1 then end else "," + (PrintMembers(entries[1..]) + end)
  }

  function ItemsRest(items: seq<Node>, end: string): string
    requires items != []
  {
    if |items| == 1 then end else "," + (PrintItems(items[1..]) + end)
  }

  lemma {:induction false} FourParts(a: string, b: string, c: string, d: string, e: string)
    ensures (a + b + c) + e == a + (b + (c + e))
    ensures (a + b + c + "," + d) + e == a + (b + (c + ("," + (d + e))))
  {
  }

  lemma {:induction false} ThreeParts(a: string, b: string, c: string)
    ensures (a + "," + b) + c == a + ("," + (b + c))
  {
  }

  lemma {:induction false} MembersText(entries: seq<Member>, end: string)
    requires entries != []
    ensures PrintMembers(entries) + end
         == entries[0].key + (":" + (Print(entries[0].value) + MembersRest(entries, end)))
  {
    FourParts(entries[0].key, ":", Print(entries[0].value), PrintMembers(entries[1..]), end);
    assert entries[0].key + ":" + Print(entries[0].value) + "," + PrintMembers(entries[1..])
        == (entries[0].key + ":" + Print(entries[0].value)) + "," + PrintMembers(entries[1..]);
  }

  lemma {:induction false} ItemsText(items: seq<Node>, end: string)
    requires items != []
    ensures PrintItems(items) + end == Print(items[0]) + ItemsRest(items, end)
  {
    hide Print;
    if |items| > 1 {
      ThreeParts(Print(items[0]), PrintItems(items[1..]), end);
    }
  }

  lemma {:induction false} CutToken(token: string, tail: string)
    ensures (token + tail)[..|token|] == token && (token + tail)[|token|..] == tail
  {
  }

  /** An object is read back as its members are. */
  lemma {:induction false} ObjectReads(entries: seq<Member>, tail: string, depth: nat)
    requires Lexical(Object(entries))
    requires var s := PrintMembers(entries) + ("}" + tail);
             && SkipSpace(s) == s
             && ParseMembers(s, depth, {})
                == if MembersFit(entries, depth + 1) then Ok(entries, "}" + tail) else Fail
    ensures ParseValue(Print(Object(entries)) + tail, depth)
         == if Fits(Object(entries), depth) then Ok(Object(entries), tail) else Fail
  {
    hide Lexical, ParseMembers, PrintMembers, MembersFit, SkipSpace;
    PrintBegins(Object(entries), tail);
    Unwrap('{', PrintMembers(entries), "}" + tail);
    assert Print(Object(entries)) + tail == ['{'] + PrintMembers(entries) + ("}" + tail);
    assert ("}" + tail)[1..] == tail;
  }

  /** An array is read back as its items are. */
  lemma {:induction false} ArrayReads(items: seq<Node>, tail: string, depth: nat)
    requires Lexical(Array(items))
    requires var s := PrintItems(items) + ("]" + tail);
             && SkipSpace(s) == s
             && ParseItems(s, depth) == if ItemsFit(items, depth + 1) then Ok(items, "]" + tail) else Fail
    ensures ParseValue(Print(Array(items)) + tail, depth)
         == if Fits(Array(items), depth) then Ok(Array(items), tail) else Fail
  {
    hide Lexical, ParseItems, PrintItems, ItemsFit, SkipSpace;
    PrintBegins(Array(items), tail);
    Unwrap('[', PrintItems(items), "]" + tail);
    assert Print(Array(items)) + tail == ['['] + PrintItems(items) + ("]" + tail);
    assert ("]" + tail)[1..] == tail;
  }

  /** A printed value is read back exactly when it fits, and refused otherwise. */
  lemma {:induction false} ReadsBack(n: Node, tail: string, depth: nat)
    requires Lexical(n) && Stops(tail)
    ensures ParseValue(Print(n) + tail, depth) == if Fits(n, depth) then Ok(n, tail) else Fail
    decreases n, 0
  {
    hide LexicalMembers, LexicalItems, ParseMembers, ParseItems, MembersFit, ItemsFit, SkipSpace, Leaf, NumberToken;
    match n {
      case Object(entries) =>
        MembersReadBack(entries, "}" + tail, depth, {});
        ObjectReads(entries, tail, depth);
      case Array(items) =>
        ItemsReadBack(items, "]" + tail, depth);
        ArrayReads(items, tail, depth);
      case Text(raw) =>
        PrintBegins(n, tail);
        StringStops(raw, tail);
        CutToken(raw, tail);
      case _ =>
        PrintBegins(n, tail);
        LeafReads(n, tail);
    }
  }

  lemma {:induction false} MemberReadsBack(m: Member, rest: string, depth: nat, seen: set<seq<nat>>)
    requires KeyFits(m.key, seen) && Lexical(m.value) && Stops(rest)
    ensures ParseMember(m.key + (":" + (Print(m.value) + rest)), depth, seen)
         == if Fits(m.value, depth + 1) then Ok(m, rest) else Fail
    decreases m, 0
  {
    var inner := Print(m.value) + rest;
    StringStops(m.key, ":" + inner);
    CutToken(m.key, ":" + inner);
    assert (":" + inner)[1..] == inner;
    ReadsBack(m.value, rest, depth + 1);
  }

  lemma {:induction false} MembersUnfold(s: string, depth: nat, seen: set<seq<nat>>, rest: string)
    requires !Begins(s, '}') && Delimits(rest)
    requires ParseMember(s, depth, seen).Ok? ==> ParseMember(s, depth, seen).rest == rest
    ensures ParseMembers(s, depth, seen)
         == match ParseMember(s, depth, seen)
            case Fail => Fail
            case Ok(m, _) =>
              if !Begins(rest, ',') then Ok([m], rest)
              else AddTo([m], ParseMembers(SkipSpace(rest[1..]), depth, seen + {Decode(m.key).GetOr([])}))
  {
    DelimiterStays(rest);
  }

  /** The list begins with a quote, so the reader expects a member. */
  lemma {:induction false} MembersBegin(entries: seq<Member>, end: string)
    requires entries != [] && Begins(entries[0].key, '"')
    ensures Begins(PrintMembers(entries) + end, '"')
    ensures SkipSpace(PrintMembers(entries) + end) == PrintMembers(entries) + end
  {
    MembersText(entries, end);
  }

  lemma {:induction false} NoMembers(end: string, depth: nat, seen: set<seq<nat>>)
    requires Begins(end, '}')
    ensures PrintMembers([]) + end == end && SkipSpace(end) == end
    ensures ParseMembers(end, depth, seen) == Ok([], end) && MembersFit([], depth + 1)
  {
  }

  lemma {:induction false} MembersFitUnfold(entries: seq<Member>, depth: nat)
    requires entries != []
    ensures MembersFit(entries, depth) <==>
              Fits(entries[0].value, depth) && (|entries| > 1 ==> MembersFit(entries[1..], depth))
  {
    if |entries| == 1 {
      assert entries[1..] == [];
    }
  }

  lemma {:induction false} MembersReadBack(entries: seq<Member>, end: string, depth: nat, seen: set<seq<nat>>)
    requires LexicalMembers(entries, seen) && Begins(end, '}')
    ensures SkipSpace(PrintMembers(entries) + end) == PrintMembers(entries) + end
    ensures ParseMembers(PrintMembers(entries) + end, depth, seen)
         == if MembersFit(entries, depth + 1) then Ok(entries, end) else Fail
    decreases entries, 1
  {
    hide Lexical, Print, Decode, Fits, ParseMembers, PrintMembers, MembersFit, SkipSpace, Begins;
    if entries == [] {
      NoMembers(end, depth, seen);
    } else {
      MembersBegin(entries, end);
      FirstMemberReadsBack(entries, end, depth, seen);
      MembersFitUnfold(entries, depth + 1);
      if |entries| > 1 {
        MembersReadBack(entries[1..], end, depth, seen + {Decode(entries[0].key).GetOr([])});
        assert [entries[0]] + entries[1..] == entries;
      } else {
        assert [entries[0]] == entries;
      }
    }
  }

  lemma {:induction false} FirstMemberReadsBack(entries: seq<Member>, end: string, depth: nat, seen: set<seq<nat>>)
    requires entries != [] && Begins(end, '}')
    requires KeyFits(entries[0].key, seen) && Lexical(entries[0].value)
    ensures ParseMembers(PrintMembers(entries) + end, depth, seen)
         == if !Fits(entries[0].value, depth + 1) then Fail
            else if |entries| == 1 then Ok([entries[0]], end)
            else AddTo([entries[0]],
                   ParseMembers(SkipSpace(PrintMembers(entries[1..]) + end), depth,
                                seen + {Decode(entries[0].key).GetOr([])}))
    decreases entries, 0
  {
    var rest := MembersRest(entries, end);
    MembersText(entries, end);
    MembersBegin(entries, end);
    MemberReadsBack(entries[0], rest, depth, seen);
    MembersUnfold(PrintMembers(entries) + end, depth, seen, rest);
    if |entries| > 1 {
      assert rest[1..] == PrintMembers(entries[1..]) + end;
    }
  }

  /** The first item of a printed list, once it is known how it is read. */
  lemma {:induction false} FirstItemReadsBack(items: seq<Node>, end: string, depth: nat)
    requires items != [] && Begins(end, ']') && Lexical(items[0])
    requires ParseValue(Print(items[0]) + ItemsRest(items, end), depth + 1)
          == if Fits(items[0], depth + 1) then Ok(items[0], ItemsRest(items, end)) else Fail
    ensures SkipSpace(PrintItems(items) + end) == PrintItems(items) + end
    ensures ParseItems(PrintItems(items) + end, depth)
         == if !Fits(items[0], depth + 1) then Fail
            else if |items| == 1 then Ok([items[0]], end)
            else AddTo([items[0]], ParseItems(PrintItems(items[1..]) + end, depth))
  {
    hide Lexical, Print, Fits, ParseValue;
    var rest := ItemsRest(items, end);
    ItemsText(items, end);
    PrintBegins(items[0], rest);
    DelimiterStays(rest);
    if |items| > 1 {
      assert rest[1..] == PrintItems(items[1..]) + end;
    }
  }

  lemma {:induction false} ItemsReadBack(items: seq<Node>, end: string, depth: nat)
    requires LexicalItems(items) && Begins(end, ']')
    ensures SkipSpace(PrintItems(items) + end) == PrintItems(items) + end
    ensures ParseItems(PrintItems(items) + end, depth)
         == if ItemsFit(items, depth + 1) then Ok(items, end) else Fail
    decreases items, 1
  {
    if items == [] {
      assert PrintItems(items) + end == end;
    } else {
      hide Lexical, Print, Fits, ParseValue, ParseItems, PrintItems, SkipSpace;
      ReadsBack(items[0], ItemsRest(items, end), depth + 1);
      FirstItemReadsBack(items, end, depth);
      if |items| == 1 {
        assert items[1..] == [] && [items[0]] == items;
      } else {
        ItemsReadBack(items[1..], end, depth);
        assert [items[0]] + items[1..] == items;
      }
    }
  }

  // ---------------------------------------------------------------- the projection

  lemma {:induction false} AllTextDropsAll(entries: seq<Member>)
    ensures AllText(entries) <==> ProjectMembers(entries) == []
  {
    if entries != [] {
      AllTextDropsAll(entries[1..]);
    }
  }

  lemma {:induction false} ItemsPrint(items: seq<Node>)
    ensures ProjectedItems(items) == PrintItems(NumbersOnly(items))
  {
    if items != [] {
      assert NumbersOnly(items)[1..] == NumbersOnly(items[1..]);
      ItemsPrint(items[1..]);
    }
  }

  lemma {:induction false} CountPrints(count: string)
    ensures Print(Object([Member(COUNT_KEY, Number(count))])) == "{\"count\":" + count + "}"
  {
    var entries := [Member(COUNT_KEY, Number(count))];
    assert PrintMembers(entries) == COUNT_KEY + ":" + count;
    assert "{" + (COUNT_KEY + ":" + count) + "}" == ("{" + COUNT_KEY + ":") + count + "}";
    assert "{" + COUNT_KEY + ":" == "{\"count\":";
  }

  /** The projection is printed as the tree it stands for. */
  lemma {:induction false} ProjectPrints(n: Node)
    ensures Project(n) == Print(Projection(n))
    decreases n, 0
  {
    match n {
      case Object(entries) => MembersPrint(entries);
      case Array(items) =>
        if HasNumber(items) {
          ItemsPrint(items);
        } else {
          CountPrints(Decimal(|items|));
        }
      case _ =>
    }
  }

  lemma {:induction false} MembersPrint(entries: seq<Member>)
    ensures ProjectedMembers(entries) == PrintMembers(ProjectMembers(entries))
    decreases entries, 1
  {
    if entries != [] {
      var more := ProjectMembers(entries[1..]);
      MembersPrint(entries[1..]);
      if !entries[0].value.Text? {
        ProjectPrints(entries[0].value);
        AllTextDropsAll(entries[1..]);
        assert ProjectMembers(entries)[1..] == more;
      }
    }
  }

  /** An array with a number in it keeps its length and its numbers in place; any other becomes its length. */
  lemma {:induction false} ArrayProjects(items: seq<Node>)
    ensures (exists i :: 0 <= i < |items| && items[i].Number?) ==>
              var r := Projection(Array(items));
              && r.Array? && |r.items| == |items|
              && forall i :: 0 <= i < |items| ==> r.items[i] == if items[i].Number? then items[i] else Null("null")
    ensures (forall i :: 0 <= i < |items| ==> !items[i].Number?) ==>
              Projection(Array(items)) == Object([Member("\"count\"", Number(Decimal(|items|)))])
  {
  }

  /** The positions from `i` on of the members that are no strings, in order. */
  function NoStrings(entries: seq<Member>, i: nat): (kept: seq<nat>)
    requires i <= |entries|
    ensures forall k :: 0 <= k < |kept| ==> i <= kept[k] < |entries| && !entries[kept[k]].value.Text?
    ensures forall j, k :: 0 <= j < k < |kept| ==> kept[j] < kept[k]
    decreases |entries| - i
  {
    if i == |entries| then []
    else (if entries[i].value.Text? then [] else [i]) + NoStrings(entries, i + 1)
  }

  lemma {:induction false} NoStringMissed(entries: seq<Member>, i: nat, j: nat)
    requires i <= j < |entries| && !entries[j].value.Text?
    ensures j in NoStrings(entries, i)
    decreases j - i
  {
    if i < j {
      NoStringMissed(entries, i + 1, j);
    }
  }

  /** The members `r` are those at these positions, with their keys, projected. */
  ghost predicate AreProjected(entries: seq<Member>, kept: seq<nat>, r: seq<Member>) {
    && |kept| == |r|
    && forall k :: 0 <= k < |r| ==>
         kept[k] < |entries| && r[k] == Member(entries[kept[k]].key, Projection(entries[kept[k]].value))
  }

  lemma {:induction false} OneMoreProjected(entries: seq<Member>, i: nat, kept: seq<nat>, r: seq<Member>)
    requires i < |entries| && AreProjected(entries, kept, r)
    ensures AreProjected(entries, [i] + kept, [Member(entries[i].key, Projection(entries[i].value))] + r)
  {
    hide Projection;
  }

  lemma {:induction false} NoStringsProjected(entries: seq<Member>, i: nat)
    requires i <= |entries|
    ensures AreProjected(entries, NoStrings(entries, i), ProjectMembers(entries[i..]))
    decreases |entries| - i
  {
    hide Projection;
    if i < |entries| {
      hide AreProjected;
      NoStringsProjected(entries, i + 1);
      assert entries[i..][1..] == entries[i + 1..];
      assert [] + NoStrings(entries, i + 1) == NoStrings(entries, i + 1);
      if !entries[i].value.Text? {
        OneMoreProjected(entries, i, NoStrings(entries, i + 1), ProjectMembers(entries[i + 1..]));
      }
    }
  }

  /** An object keeps exactly its members that are no strings, in order, under their keys. */
  lemma {:induction false} ObjectProjects(entries: seq<Member>)
    ensures Projection(Object(entries)).Object?
    ensures var r, kept := Projection(Object(entries)).entries, NoStrings(entries, 0);
            && |kept| == |r|
            && forall k :: 0 <= k < |r| ==>
                 r[k] == Member(entries[kept[k]].key, Projection(entries[kept[k]].value))
    ensures forall i :: 0 <= i < |entries| ==> (i in NoStrings(entries, 0) <==> !entries[i].value.Text?)
  {
    NoStringsProjected(entries, 0);
    assert entries[0..] == entries;
    forall i | 0 <= i < |entries| && !entries[i].value.Text?
      ensures i in NoStrings(entries, 0)
    {
      NoStringMissed(entries, 0, i);
    }
  }

  /** Everything else stays as it is. */
  lemma {:induction false} LeafProjects(n: Node)
    requires !n.Object? && !n.Array?
    ensures Projection(n) == n && Project(n) == n.raw
  {
  }

  lemma {:induction false} FewerSeen(entries: seq<Member>, seen: set<seq<nat>>, fewer: set<seq<nat>>)
    requires LexicalMembers(entries, seen) && fewer <= seen
    ensures LexicalMembers(entries, fewer)
  {
    if entries != [] {
      var key := {Decode(entries[0].key).GetOr([])};
      FewerSeen(entries[1..], seen + key, fewer + key);
    }
  }

  /** `word` without quotes and escapes, and a quote: the token ends there. */
  predicate Plain(word: string) {
    forall i :: 0 <= i < |word| ==> 'a' <= word[i] <= 'z'
  }

  lemma {:induction false} PlainEnds(word: string)
    requires Plain(word)
    ensures StringEnd(word + "\"") == Some(|word| + 1) && DecodeInside(word + "\"").Some?
  {
    if word == "" {
      assert word + "\"" == "\"";
    } else {
      assert (word + "\"")[1..] == word[1..] + "\"";
      PlainEnds(word[1..]);
    }
  }

  lemma {:induction false} CountKeyFits()
    ensures KeyFits(COUNT_KEY, {})
  {
    hide StringEnd, DecodeInside;
    PlainEnds("count");
    assert COUNT_KEY[1..] == "count" + "\"";
  }

  lemma {:induction false} NumbersLexical(items: seq<Node>)
    requires LexicalItems(items)
    ensures LexicalItems(NumbersOnly(items))
  {
    if items != [] {
      assert NumbersOnly(items)[1..] == NumbersOnly(items[1..]);
      NumbersLexical(items[1..]);
    }
  }

  lemma {:induction false} CountLexical(k: nat)
    ensures LexicalMembers([Member(COUNT_KEY, Number(Decimal(k)))], {})
  {
    CountKeyFits();
    DecimalIsNumber(k);
    var entries := [Member(COUNT_KEY, Number(Decimal(k)))];
    assert entries[1..] == [];
    assert Lexical(entries[0].value);
  }

  lemma {:induction false} ProjectionLexical(n: Node)
    requires Lexical(n)
    ensures Lexical(Projection(n))
    decreases n, 0
  {
    match n {
      case Object(entries) => ProjectMembersLexical(entries, {});
      case Array(items) =>
        if HasNumber(items) {
          NumbersLexical(items);
        } else {
          CountLexical(|items|);
        }
      case _ =>
    }
  }

  lemma {:induction false} ProjectMembersLexical(entries: seq<Member>, seen: set<seq<nat>>)
    requires LexicalMembers(entries, seen)
    ensures LexicalMembers(ProjectMembers(entries), seen)
    decreases entries, 1
  {
    if entries != [] {
      var more := seen + {Decode(entries[0].key).GetOr([])};
      ProjectMembersLexical(entries[1..], more);
      if entries[0].value.Text? {
        FewerSeen(ProjectMembers(entries[1..]), more, seen);
      } else {
        ProjectionLexical(entries[0].value);
        assert ProjectMembers(entries)[1..] == ProjectMembers(entries[1..]);
      }
    }
  }

  /** A printed empty array at the deepest level the reader accepts. */
  predicate EmptyAtLimit(n: Node, depth: nat)
    decreases n
  {
    match n
    case Object(entries) => MembersEmptyAtLimit(entries, depth + 1)
    case Array(items) => items == [] && depth == MAX_DEPTH
    case _ => false
  }

  predicate MembersEmptyAtLimit(entries: seq<Member>, depth: nat)
    decreases entries
  {
    entries != [] && (EmptyAtLimit(entries[0].value, depth) || MembersEmptyAtLimit(entries[1..], depth))
  }

  lemma {:induction false} NumbersFit(items: seq<Node>, depth: nat)
    requires ItemsFit(items, depth)
    ensures ItemsFit(NumbersOnly(items), depth)
  {
    if items != [] {
      assert NumbersOnly(items)[1..] == NumbersOnly(items[1..]);
      NumbersFit(items[1..], depth);
    }
  }

  /** A count is one level deeper than the array it stands for. */
  lemma {:induction false} CountFits(items: seq<Node>, depth: nat)
    requires ItemsFit(items, depth + 1) && depth <= MAX_DEPTH
    ensures MembersFit([Member(COUNT_KEY, Number(Decimal(|items|)))], depth + 1)
            <==> !(items == [] && depth == MAX_DEPTH)
  {
    var entries := [Member(COUNT_KEY, Number(Decimal(|items|)))];
    assert entries[1..] == [];
  }

  /** Projecting keeps the depth, except where it prints an empty array at the limit. */
  lemma {:induction false} ProjectionFits(n: Node, depth: nat)
    requires Fits(n, depth)
    ensures Fits(Projection(n), depth) <==> !EmptyAtLimit(n, depth)
    decreases n, 0
  {
    match n {
      case Object(entries) => ProjectMembersFit(entries, depth + 1);
      case Array(items) =>
        if HasNumber(items) {
          NumbersFit(items, depth + 1);
        } else {
          CountFits(items, depth);
        }
      case _ =>
    }
  }

  lemma {:induction false} ProjectMembersFit(entries: seq<Member>, depth: nat)
    requires MembersFit(entries, depth)
    ensures MembersFit(ProjectMembers(entries), depth) <==> !MembersEmptyAtLimit(entries, depth)
    decreases entries, 1
  {
    if entries != [] {
      ProjectMembersFit(entries[1..], depth);
      if !entries[0].value.Text? {
        ProjectionFits(entries[0].value, depth);
        assert ProjectMembers(entries)[1..] == ProjectMembers(entries[1..]);
      }
    }
  }

  /**
   * Reading the projection of any tree that was read gives exactly its numeric projection,
   * unless that prints an empty array at the deepest level, and then it is refused.
   */
  lemma {:induction false} ProjectionReadsBack(text: string, n: Node)
    requires Parse(text) == Some(n)
    ensures Parse(Project(n)) == if EmptyAtLimit(n, 0) then None else Some(Projection(n))
  {
    ReadIsSound(text, 0);
    ProjectPrints(n);
    ProjectionLexical(n);
    ProjectionFits(n, 0);
    ReadsBack(Projection(n), "", 0);
    assert Print(Projection(n)) + "" == Print(Projection(n));
  }

  lemma {:induction false} NumbersTwice(items: seq<Node>)
    ensures NumbersOnly(NumbersOnly(items)) == NumbersOnly(items)
    ensures HasNumber(NumbersOnly(items)) <==> HasNumber(items)
  {
    if HasNumber(items) {
      var i :| 0 <= i < |items| && items[i].Number?;
      assert NumbersOnly(items)[i].Number?;
    }
    if HasNumber(NumbersOnly(items)) {
      var i :| 0 <= i < |items| && NumbersOnly(items)[i].Number?;
      assert items[i].Number?;
    }
  }

  /** Projecting again changes nothing, neither the tree nor the text. */
  lemma {:induction false} ProjectionIdempotent(n: Node)
    ensures Projection(Projection(n)) == Projection(n)
    ensures Project(Projection(n)) == Project(n)
    decreases n, 2
  {
    ProjectedTwice(n);
    ProjectPrints(n);
    ProjectPrints(Projection(n));
  }

  lemma {:induction false} ProjectedTwice(n: Node)
    ensures Projection(Projection(n)) == Projection(n)
    ensures Projection(n).Text? <==> n.Text?
    decreases n, 0
  {
    match n {
      case Object(entries) => MembersProjectedTwice(entries);
      case Array(items) =>
        NumbersTwice(items);
        var count := [Member(COUNT_KEY, Number(Decimal(|items|)))];
        assert count[1..] == [];
        assert ProjectMembers(count) == count;
      case _ =>
    }
  }

  lemma {:induction false} MembersProjectedTwice(entries: seq<Member>)
    ensures ProjectMembers(ProjectMembers(entries)) == ProjectMembers(entries)
    decreases entries, 1
  {
    if entries != [] {
      MembersProjectedTwice(entries[1..]);
      if !entries[0].value.Text? {
        ProjectedTwice(entries[0].value);
        assert ProjectMembers(entries)[1..] == ProjectMembers(entries[1..]);
      }
    }
  }
}
