/** The chat transcript an agent run carries, its wire size, and its well-formedness. */
module Conversation {
  import opened Common

  datatype Role = System | User | Assistant | Tool

  /** Message text. The two stubs are what compaction writes in place of a long text. */
  datatype Content =
    | Text(text: string)
    | ToolStub(tool: Option<string>, elided: nat)
    | ProseStub(elided: nat)

  /**
   * Tool-call arguments by their JSON text; `keyed` says whether the object has the
   * reserved `__compacted` key. `ElidedArgs` is what compaction writes instead.
   */
  datatype Args = Json(text: string, keyed: bool) | ElidedArgs(chars: nat)

  datatype ToolCall = ToolCall(id: string, name: string, args: Args)

  datatype Message = Message(
    role: Role,
    content: Content,
    calls: seq<ToolCall>,
    callId: Option<string>,
    name: Option<string>)

  const STUB_PREFIX := "[compacted"

  function ContentChars(c: Content): nat {
    match c
    case Text(t) => |t|
    case ToolStub(tool, n) => 123 + Digits(n) + (if tool.Some? then 4 + |tool.value| else 0)
    case ProseStub(n) => 82 + Digits(n)
  }

  /** `content.startsWith('[compacted')`. */
  predicate Marked(c: Content) {
    c.Text? ==> STUB_PREFIX <= c.text
  }

  function ArgsChars(a: Args): nat {
    match a
    case Json(t, _) => |t|
    case ElidedArgs(n) => 44 + Digits(n)
  }

  predicate Keyed(a: Args) {
    a.Json? ==> a.keyed
  }

  function CallsChars(calls: seq<ToolCall>): nat {
    if calls == [] then 0
    else ArgsChars(calls[0].args) + |calls[0].name| + CallsChars(calls[1..])
  }

  /** What a message costs on the wire. */
  function MessageChars(m: Message): nat {
    ContentChars(m.content) + 1 + CallsChars(m.calls)
  }

  function Chars(ms: seq<Message>): nat {
    if ms == [] then 0 else MessageChars(ms[0]) + Chars(ms[1..])
  }

  lemma {:induction false} CharsConcat(a: seq<Message>, b: seq<Message>)
    ensures Chars(a + b) == Chars(a) + Chars(b)
  {
    if a == [] {
      assert a + b == b;
    } else {
      CharsConcat(a[1..], b);
      assert (a + b)[1..] == a[1..] + b;
    }
  }

  lemma {:induction false} CharsSplit(ms: seq<Message>, i: nat)
    requires i <= |ms|
    ensures Chars(ms) == Chars(ms[..i]) + Chars(ms[i..])
  {
    CharsConcat(ms[..i], ms[i..]);
    assert ms[..i] + ms[i..] == ms;
  }

  lemma {:induction false} CharsUpdate(ms: seq<Message>, i: nat, m: Message)
    requires i < |ms|
    ensures Chars(ms[i := m]) == Chars(ms) - MessageChars(ms[i]) + MessageChars(m)
  {
    CharsSplit(ms, i);
    CharsSplit(ms[i := m], i);
    assert ms[i := m][..i] == ms[..i];
    assert ms[i := m][i..][1..] == ms[i..][1..];
  }

  lemma {:induction false} CharsAtLeastLength(ms: seq<Message>)
    ensures Chars(ms) >= |ms|
  {
    if ms != [] {
      CharsAtLeastLength(ms[1..]);
    }
  }

  // ---------------------------------------------------------------- well-formedness

  /** `results` are exactly the tool messages that answer `calls`, id by id and in order. */
  predicate Answers(calls: seq<ToolCall>, results: seq<Message>) {
    && |results| == |calls|
    && forall i :: 0 <= i < |calls| ==>
         results[i].role.Tool? && results[i].callId == Some(calls[i].id)
  }

  /** How many messages the exchange opened by `m` spans. */
  function Span(m: Message): nat {
    if m.role.Assistant? then 1 + |m.calls| else 1
  }

  /** Every tool call is followed by exactly its result, and no result stands alone. */
  predicate WellFormed(ms: seq<Message>)
    decreases |ms|
  {
    ms != [] ==>
      && !ms[0].role.Tool?
      && Span(ms[0]) <= |ms|
      && (ms[0].role.Assistant? ==> Answers(ms[0].calls, ms[1..Span(ms[0])]))
      && WellFormed(ms[Span(ms[0])..])
  }

  /** One exchange in front of a well-formed transcript. */
  lemma {:induction false} WellFormedCons(head: seq<Message>, tail: seq<Message>)
    requires head != [] && !head[0].role.Tool? && Span(head[0]) == |head|
    requires head[0].role.Assistant? ==> Answers(head[0].calls, head[1..])
    requires WellFormed(tail)
    ensures WellFormed(head + tail)
  {
    var ms := head + tail;
    assert ms[0] == head[0];
    assert ms[1..|head|] == head[1..];
    assert ms[|head|..] == tail;
  }

  lemma {:induction false} WellFormedConcat(a: seq<Message>, b: seq<Message>)
    requires WellFormed(a) && WellFormed(b)
    ensures WellFormed(a + b)
    decreases |a|
  {
    if a == [] {
      AppendNil(b);
    } else {
      var n := Span(a[0]);
      var head, rest := a[..n], a[n..];
      WellFormedConcat(rest, b);
      assert head[1..] == a[1..n];
      WellFormedCons(head, rest + b);
      AppendSplit(a, n, b);
    }
  }

  /** A position in front of a message that is not a tool result falls behind the first exchange. */
  lemma {:induction false} CutBehindExchange(ms: seq<Message>, i: nat)
    requires WellFormed(ms)
    requires 0 < i <= |ms| && (i < |ms| ==> !ms[i].role.Tool?)
    ensures Span(ms[0]) <= i
  {
  }

  /** A well-formed transcript can be cut in front of any message that is not a tool result. */
  lemma {:induction false} WellFormedPrefix(ms: seq<Message>, i: nat)
    requires WellFormed(ms)
    requires i <= |ms| && (i < |ms| ==> !ms[i].role.Tool?)
    ensures WellFormed(ms[..i])
    decreases i
  {
    if i > 0 {
      CutBehindExchange(ms, i);
      var n := Span(ms[0]);
      var rest, head := ms[n..], ms[..i];
      WellFormedPrefix(rest, i - n);
      assert head[n..] == rest[..i - n];
      assert head[1..n] == ms[1..n];
    }
  }

  lemma {:induction false} WellFormedSuffix(ms: seq<Message>, i: nat)
    requires WellFormed(ms)
    requires i <= |ms| && (i < |ms| ==> !ms[i].role.Tool?)
    ensures WellFormed(ms[i..])
    decreases i
  {
    if i == 0 {
      assert ms[0..] == ms;
    } else {
      CutBehindExchange(ms, i);
      var n := Span(ms[0]);
      WellFormedSuffix(ms[n..], i - n);
      assert ms[n..][i - n..] == ms[i..];
    }
  }

  /** Removing a stretch that starts and ends in front of non-results keeps well-formedness. */
  lemma {:induction false} WellFormedCut(ms: seq<Message>, start: nat, end: nat)
    requires WellFormed(ms)
    requires start < end <= |ms| && !ms[start].role.Tool?
    requires end < |ms| ==> !ms[end].role.Tool?
    ensures WellFormed(ms[..start] + ms[end..])
  {
    WellFormedPrefix(ms, start);
    WellFormedSuffix(ms, end);
    WellFormedConcat(ms[..start], ms[end..]);
  }

  /** Two messages that play the same part in the exchange structure. */
  predicate SameShape(m: Message, m': Message) {
    && m'.role == m.role
    && m'.callId == m.callId
    && |m'.calls| == |m.calls|
    && forall i :: 0 <= i < |m.calls| ==> m'.calls[i].id == m.calls[i].id
  }

  lemma {:induction false} WellFormedShape(ms: seq<Message>, ms': seq<Message>)
    requires WellFormed(ms)
    requires |ms'| == |ms| && forall i :: 0 <= i < |ms| ==> SameShape(ms[i], ms'[i])
    ensures WellFormed(ms')
    decreases |ms|
  {
    if ms != [] {
      assert SameShape(ms[0], ms'[0]);
      var n := Span(ms[0]);
      WellFormedShape(ms[n..], ms'[n..]);
      if ms[0].role.Assistant? {
        forall i | 0 <= i < |ms[0].calls|
          ensures ms'[1..n][i].role.Tool? && ms'[1..n][i].callId == Some(ms'[0].calls[i].id)
        {
          assert SameShape(ms[1 + i], ms'[1 + i]);
          assert ms[1..n][i] == ms[1 + i];
        }
      }
    }
  }

  // ---------------------------------------------------------------- standing messages

  predicate Standing(m: Message) {
    m.role.System? || m.role.User?
  }

  /** The system and user messages, in order. */
  function StandingOf(ms: seq<Message>): seq<Message> {
    if ms == [] then []
    else (if Standing(ms[0]) then [ms[0]] else []) + StandingOf(ms[1..])
  }

  lemma {:induction false} StandingConcat(a: seq<Message>, b: seq<Message>)
    ensures StandingOf(a + b) == StandingOf(a) + StandingOf(b)
  {
    if a == [] {
      assert a + b == b;
    } else {
      StandingConcat(a[1..], b);
      assert (a + b)[1..] == a[1..] + b;
      AppendAssociates(if Standing(a[0]) then [a[0]] else [], StandingOf(a[1..]), StandingOf(b));
    }
  }
}
