/** The reader as it works: a cursor over the text, and loops that fill entries and items. */
module JsonReader {
  import opened Common
  import opened Json

  lemma {:induction false} AddNothing<T>(p: Parsed<seq<T>>)
    ensures AddTo([], p) == p
  {
    if p.Ok? {
      assert [] + p.value == p.value;
    }
  }

  lemma {:induction false} AddOne<T>(first: seq<T>, x: T, p: Parsed<seq<T>>)
    ensures AddTo(first + [x], p) == AddTo(first, AddTo([x], p))
  {
    if p.Ok? {
      assert (first + [x]) + p.value == first + ([x] + p.value);
    }
  }

  lemma {:induction false} AddLast<T>(first: seq<T>, last: seq<T>, rest: string)
    ensures AddTo(first, Ok(last, rest)) == Ok(first + last, rest)
  {
  }

  lemma {:induction false} MembersOnce(s: string, depth: nat, seen: set<seq<nat>>)
    requires !Begins(s, '}')
    ensures ParseMembers(s, depth, seen)
         == match ParseMember(s, depth, seen)
            case Fail => Fail
            case Ok(m, rest) =>
              var t := SkipSpace(rest);
              if !Begins(t, ',') then Ok([m], t)
              else AddTo([m], ParseMembers(SkipSpace(t[1..]), depth, seen + {Decode(m.key).GetOr([])}))
  {
  }

  lemma {:induction false} ItemsOnce(s: string, depth: nat)
    requires !Begins(s, ']')
    ensures ParseItems(s, depth)
         == match ParseValue(s, depth + 1)
            case Fail => Fail
            case Ok(v, rest) =>
              var t := SkipSpace(rest);
              if !Begins(t, ',') then Ok([v], t) else AddTo([v], ParseItems(t[1..], depth))
  {
  }

  function Shifted(n: Option<nat>, shift: nat): Option<nat> {
    if n.None? then None else Some(shift + n.value)
  }

  /** Where the token ends, when the first `k` characters of it are behind the cursor. */
  function EndFrom(inside: string, k: nat): Option<nat> {
    if k > |inside| then None else Shifted(StringEnd(inside[k..]), k)
  }

  lemma {:induction false} EndStep(inside: string, k: nat)
    requires k < |inside|
    ensures EndFrom(inside, k)
         == if inside[k] == '"' then Some(k + 1)
            else EndFrom(inside, k + (if inside[k] == '\\' then 2 else 1))
  {
    var s := inside[k..];
    assert s[0] == inside[k];
    var skip := if s[0] == '\\' then 2 else 1;
    if k + skip <= |inside| {
      assert s[skip..] == inside[k + skip..];
    }
  }

  lemma {:induction false} EndFromStart(inside: string)
    ensures StringEnd(inside) == EndFrom(inside, 0)
  {
    assert inside[0..] == inside;
  }

  lemma {:induction false} EndPast(inside: string, k: nat)
    requires k >= |inside|
    ensures EndFrom(inside, k).None?
  {
    if k == |inside| {
      assert inside[k..] == "";
    }
  }

  class Reader {
    const text: string
    var at: nat

    constructor (text: string)
      ensures this.text == text && at == 0
    {
      this.text, at := text, 0;
    }

    /** `text[at] === c`. */
    predicate Sees(c: char)
      reads this
    {
      at < |text| && text[at] == c
    }

    /** What is still to be read. */
    function Rest(): string
      reads this
      requires at <= |text|
    {
      text[at..]
    }

    /** `at++`, inside the text. */
    method Advance()
      requires at < |text|
      modifies this
      ensures at == old(at) + 1 && Rest() == old(Rest())[1..]
    {
      DropDrop(text, at, 1);
      at := at + 1;
    }

    method SkipSpaces()
      requires at <= |text|
      modifies this
      ensures old(at) <= at <= |text| && Rest() == SkipSpace(old(Rest()))
    {
      while at < |text| && IsSpace(text[at])
        invariant old(at) <= at <= |text| && SkipSpace(Rest()) == SkipSpace(old(Rest()))
      {
        Advance();
      }
    }

    /** Moves behind the closing quote of the string the cursor is in. */
    method ScanString() returns (closed: bool)
      requires at <= |text|
      modifies this
      ensures closed <==> StringEnd(old(Rest())).Some?
      ensures closed ==> at == old(at) + StringEnd(old(Rest())).value
    {
      ghost var inside, k := Rest(), 0;
      EndFromStart(inside);
      while at < |text|
        invariant at == old(at) + k && at <= |text| + 1
        invariant StringEnd(inside) == EndFrom(inside, k)
        decreases |text| + 1 - at
      {
        EndStep(inside, k);
        var c := text[at];
        assert c == inside[k];
        at, k := at + 1, k + 1;
        if c == '\\' {
          at, k := at + 1, k + 1;
        } else if c == '"' {
          return true;
        }
      }
      EndPast(inside, k);
      return false;
    }

    /** Reads a string token, up to its closing quote. */
    method ReadString() returns (raw: Option<string>)
      requires Sees('"')
      modifies this
      ensures raw.None? <==> StringToken(old(Rest())).None?
      ensures raw.Some? ==>
                var n := StringToken(old(Rest())).value;
                && old(at) < at <= |text|
                && raw.value == old(Rest())[..n] && Rest() == old(Rest())[n..]
    {
      var start := at;
      Advance();
      var closed := ScanString();
      if !closed {
        return None;
      }
      DropDrop(text, start, at - start);
      raw := Some(text[start..at]);
    }

    /** A number or a literal. */
    method ReadLeaf() returns (n: Option<Node>)
      requires at <= |text|
      modifies this
      ensures n.None? <==> Leaf(old(Rest())).Fail?
      ensures n.Some? ==> old(at) < at <= |text| && Leaf(old(Rest())) == Ok(n.value, Rest())
    {
      hide Leaf;
      match Leaf(Rest()) {
        case Fail => n := None;
        case Ok(v, rest) =>
          n := Some(v);
          LeafRest(Rest());
          DropDrop(text, at, |Rest()| - |rest|);
          at := |text| - |rest|;
      }
    }

    /** Reads one value; the cursor ends up behind it. */
    method ReadValue(depth: nat) returns (n: Option<Node>)
      requires at <= |text|
      modifies this
      ensures n.None? <==> ParseValue(old(Rest()), depth).Fail?
      ensures n.Some? ==> old(at) < at <= |text| && ParseValue(old(Rest()), depth) == Ok(n.value, Rest())
      decreases |text| - at, 1
    {
      if depth > MAX_DEPTH {
        return None;
      }
      SkipSpaces();
      if Sees('{') {
        Advance();
        n := ReadObject(depth);
      } else if Sees('[') {
        Advance();
        n := ReadArray(depth);
      } else if Sees('"') {
        var raw := ReadString();
        n := if raw.None? then None else Some(Text(raw.value));
      } else {
        n := ReadLeaf();
      }
    }

    /** An object, behind its opening brace. */
    method ReadObject(depth: nat) returns (n: Option<Node>)
      requires at <= |text|
      modifies this
      ensures var p := ParseMembers(SkipSpace(old(Rest())), depth, {});
              && (n.None? <==> p.Fail? || !Begins(p.rest, '}'))
              && (n.Some? ==>
                    && old(at) < at <= |text| && n.value == Object(p.value)
                    && Rest() == p.rest[1..])
      decreases |text| - at, 4
    {
      SkipSpaces();
      var entries := ReadMembers(depth);
      if entries.None? || !Sees('}') {
        return None;
      }
      Advance();
      n := Some(Object(entries.value));
    }

    /** An array, behind its opening bracket. */
    method ReadArray(depth: nat) returns (n: Option<Node>)
      requires at <= |text|
      modifies this
      ensures var p := ParseItems(SkipSpace(old(Rest())), depth);
              && (n.None? <==> p.Fail? || !Begins(p.rest, ']'))
              && (n.Some? ==>
                    && old(at) < at <= |text| && n.value == Array(p.value)
                    && Rest() == p.rest[1..])
      decreases |text| - at, 4
    {
      SkipSpaces();
      var items := ReadItems(depth);
      if items.None? || !Sees(']') {
        return None;
      }
      Advance();
      n := Some(Array(items.value));
    }

    /** The members of an object, up to where its closing brace must be. */
    method ReadMembers(depth: nat) returns (entries: Option<seq<Member>>)
      requires at <= |text|
      modifies this
      ensures entries.None? <==> ParseMembers(old(Rest()), depth, {}).Fail?
      ensures entries.Some? ==>
                old(at) <= at <= |text| && ParseMembers(old(Rest()), depth, {}) == Ok(entries.value, Rest())
      decreases |text| - at, 3
    {
      var found: seq<Member>, seen: set<seq<nat>> := [], {};
      ghost var goal := ParseMembers(Rest(), depth, {});
      AddNothing(goal);
      while !Sees('}')
        invariant old(at) <= at <= |text|
        invariant goal == AddTo(found, ParseMembers(Rest(), depth, seen))
        decreases |text| - at
      {
        MembersOnce(Rest(), depth, seen);
        var m := ReadMember(depth, seen);
        if m.None? {
          return None;
        }
        SkipSpaces();
        if !Sees(',') {
          AddLast(found, [m.value], Rest());
          return Some(found + [m.value]);
        }
        Advance();
        SkipSpaces();
        seen := seen + {Decode(m.value.key).GetOr([])};
        AddOne(found, m.value, ParseMembers(Rest(), depth, seen));
        found := found + [m.value];
      }
      AddLast(found, [], Rest());
      assert found + [] == found;
      entries := Some(found);
    }

    /** A key that was not there before, a colon and a value. */
    method ReadMember(depth: nat, seen: set<seq<nat>>) returns (m: Option<Member>)
      requires at <= |text|
      modifies this
      ensures m.None? <==> ParseMember(old(Rest()), depth, seen).Fail?
      ensures m.Some? ==>
                old(at) < at <= |text| && ParseMember(old(Rest()), depth, seen) == Ok(m.value, Rest())
      decreases |text| - at, 2
    {
      if !Sees('"') {
        return None;
      }
      var key := ReadString();
      if key.None? {
        return None;
      }
      if Decode(key.value).None? || Decode(key.value).value in seen {
        return None;
      }
      SkipSpaces();
      if !Sees(':') {
        return None;
      }
      Advance();
      var v := ReadValue(depth + 1);
      m := if v.None? then None else Some(Member(key.value, v.value));
    }

    /** The items of an array, up to where its closing bracket must be. */
    method ReadItems(depth: nat) returns (items: Option<seq<Node>>)
      requires at <= |text|
      modifies this
      ensures items.None? <==> ParseItems(old(Rest()), depth).Fail?
      ensures items.Some? ==>
                old(at) <= at <= |text| && ParseItems(old(Rest()), depth) == Ok(items.value, Rest())
      decreases |text| - at, 3
    {
      var found: seq<Node> := [];
      ghost var goal := ParseItems(Rest(), depth);
      AddNothing(goal);
      while !Sees(']')
        invariant old(at) <= at <= |text|
        invariant goal == AddTo(found, ParseItems(Rest(), depth))
        decreases |text| - at
      {
        ItemsOnce(Rest(), depth);
        var v := ReadValue(depth + 1);
        if v.None? {
          return None;
        }
        SkipSpaces();
        if !Sees(',') {
          AddLast(found, [v.value], Rest());
          return Some(found + [v.value]);
        }
        Advance();
        AddOne(found, v.value, ParseItems(Rest(), depth));
        found := found + [v.value];
      }
      AddLast(found, [], Rest());
      assert found + [] == found;
      items := Some(found);
    }
  }

  lemma {:induction false} LeafRest(s: string)
    requires Leaf(s).Ok?
    ensures s[|s| - |Leaf(s).rest|..] == Leaf(s).rest
  {
  }

  /** `parseNode`: the whole text is one value. */
  method ParseNode(text: string) returns (n: Option<Node>)
    ensures n == Parse(text)
  {
    var reader := new Reader(text);
    assert text[0..] == text;
    var v := reader.ReadValue(0);
    if v.None? {
      return None;
    }
    reader.SkipSpaces();
    n := if reader.at == |text| then v else None;
  }

  // ---------------------------------------------------------------- the first object of an output

  const SCAN_LIMIT := 64 * 1024

  /** Opening minus closing braces. */
  function Depth(s: string): int {
    if s == "" then 0
    else
      var last := s[|s| - 1];
      Depth(s[..|s| - 1]) + (if last == '{' then 1 else if last == '}' then -1 else 0)
  }

  /** From `start` to `end` the braces balance, for the first time. */
  ghost predicate Balanced(text: string, start: nat, end: nat) {
    && start < end <= |text| && Depth(text[start..end]) == 0
    && forall k :: start < k < end ==> Depth(text[start..k]) > 0
  }

  /** A balanced slice from an opening brace that `valid` accepts as JSON. */
  ghost predicate Candidate(text: string, valid: string -> bool, start: nat, end: nat) {
    start < |text| && text[start] == '{' && Balanced(text, start, end) && valid(text[start..end])
  }

  lemma {:induction false} OnlyEnd(text: string, start: nat, a: nat, b: nat)
    requires Balanced(text, start, a) && Balanced(text, start, b)
    ensures a == b
  {
  }

  lemma {:induction false} DepthStep(text: string, start: nat, i: nat)
    requires start <= i < |text|
    ensures Depth(text[start..i + 1])
         == Depth(text[start..i]) + (if text[i] == '{' then 1 else if text[i] == '}' then -1 else 0)
  {
    assert text[start..i + 1][..i - start] == text[start..i];
  }

  /** The end of the first balanced slice from `start`, if there is one. */
  method BalancedEnd(text: string, start: nat) returns (end: Option<nat>)
    requires start < |text| && text[start] == '{'
    ensures end.Some? ==> Balanced(text, start, end.value)
    ensures end.None? ==> forall e: nat :: !Balanced(text, start, e)
  {
    var depth := 0;
    var i := start;
    assert text[start..start] == "";
    while i < |text|
      invariant start <= i <= |text| && depth == Depth(text[start..i])
      invariant i > start ==> depth > 0
      invariant forall k :: start < k <= i ==> Depth(text[start..k]) > 0
    {
      DepthStep(text, start, i);
      if text[i] == '{' {
        depth := depth + 1;
      } else if text[i] == '}' {
        depth := depth - 1;
        if depth == 0 {
          return Some(i + 1);
        }
      }
      i := i + 1;
    }
    return None;
  }

  /**
   * The slice read is the first one that is balanced and valid JSON; once it is selected, a
   * refusal by the structural reader is final. `valid` stands for `JSON.parse` succeeding.
   */
  method FirstObject(stdout: string, valid: string -> bool)
    returns (selected: Option<(nat, nat)>, node: Option<Node>)
    ensures var text := stdout[..Min(|stdout|, SCAN_LIMIT)];
            && (selected.None? ==> node.None? && forall s: nat, e: nat :: !Candidate(text, valid, s, e))
            && (selected.Some? ==>
                  var (start, end) := selected.value;
                  && Candidate(text, valid, start, end) && node == Parse(text[start..end])
                  && forall s: nat, e: nat :: s < start ==> !Candidate(text, valid, s, e))
  {
    var text := stdout[..Min(|stdout|, SCAN_LIMIT)];
    var start := 0;
    while start < |text|
      invariant 0 <= start <= |text|
      invariant forall s: nat, e: nat :: s < start ==> !Candidate(text, valid, s, e)
    {
      if text[start] == '{' {
        var end := BalancedEnd(text, start);
        if end.Some? {
          if valid(text[start..end.value]) {
            node := ParseNode(text[start..end.value]);
            return Some((start, end.value)), node;
          }
          forall e | Balanced(text, start, e)
            ensures e == end.value
          {
            OnlyEnd(text, start, e, end.value);
          }
        }
      }
      start := start + 1;
    }
    return None, None;
  }
}
