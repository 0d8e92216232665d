/**
 * Context compaction: the rewriting of a transcript so that the next request fits
 * the model's window. `Compacted` is the specification of the in-place algorithm in
 * module `Transcripts`; the theorems below are about it.
 */
module Compaction {
  import opened Common
  import opened Conversation

  const COMPACT_AT := 0.6
  const COMPACT_TO := 0.45
  const FIT_AT := 0.85
  const FIT_TO := 0.75
  const KEEP_RECENT := 6
  const LONG_CHARS := 200

  /** Everything compaction looks at besides the transcript itself. */
  datatype Request = Request(
    window: nat,
    ratio: real,
    lastInput: Option<nat>,
    schemaChars: nat,
    reserve: nat)

  predicate ValidRequest(rq: Request) {
    rq.ratio > 0.0
  }

  // ---------------------------------------------------------------- the estimate

  function EstimateChars(chars: nat, rq: Request): int {
    Ceil(Times(chars + rq.schemaChars, rq.ratio))
  }

  function Estimate(ms: seq<Message>, rq: Request): int {
    EstimateChars(Chars(ms), rq)
  }

  predicate Fits(ms: seq<Message>, rq: Request, share: real) {
    (Estimate(ms, rq) + rq.reserve) as real <= share * rq.window as real
  }

  lemma {:induction false} EstimateMonotone(a: nat, b: nat, rq: Request)
    requires a <= b && ValidRequest(rq)
    ensures EstimateChars(a, rq) <= EstimateChars(b, rq)
  {
    TimesMonotone(a + rq.schemaChars, b + rq.schemaChars, rq.ratio);
  }

  lemma {:induction false} FitsMonotone(ms: seq<Message>, ms': seq<Message>, rq: Request, share: real)
    requires ValidRequest(rq) && Chars(ms') <= Chars(ms) && Fits(ms, rq, share)
    ensures Fits(ms', rq, share)
  {
    EstimateMonotone(Chars(ms'), Chars(ms), rq);
  }

  lemma {:induction false} FitsTighter(ms: seq<Message>, rq: Request)
    requires Fits(ms, rq, FIT_TO)
    ensures Fits(ms, rq, FIT_AT)
  {
  }

  // ---------------------------------------------------------------- stubbing one message

  predicate BigArgs(a: Args) {
    !Keyed(a) && ArgsChars(a) > LONG_CHARS
  }

  predicate HasBigArgs(calls: seq<ToolCall>) {
    calls != [] && (BigArgs(calls[0].args) || HasBigArgs(calls[1..]))
  }

  predicate LongProse(m: Message) {
    ContentChars(m.content) > LONG_CHARS && !Marked(m.content)
  }

  /** Whether stubbing the message (its prose too, when asked) makes it smaller. */
  predicate Stubbable(m: Message, prose: bool) {
    match m.role
    case Tool =>
      !Marked(m.content) &&
      ContentChars(ToolStub(m.name, ContentChars(m.content))) < ContentChars(m.content)
    case Assistant => HasBigArgs(m.calls) || (prose && LongProse(m))
    case _ => false
  }

  function StubCall(tc: ToolCall): ToolCall {
    if ArgsChars(tc.args) > LONG_CHARS then tc.(args := ElidedArgs(ArgsChars(tc.args))) else tc
  }

  function StubCalls(calls: seq<ToolCall>): (r: seq<ToolCall>)
    ensures |r| == |calls|
    ensures forall i :: 0 <= i < |calls| ==> r[i] == StubCall(calls[i])
  {
    if calls == [] then [] else [StubCall(calls[0])] + StubCalls(calls[1..])
  }

  function Stub(m: Message, prose: bool): Message
    requires Stubbable(m, prose)
  {
    var chars := ContentChars(m.content);
    if m.role.Tool? then m.(content := ToolStub(m.name, chars))
    else
      m.(content := if prose && LongProse(m) then ProseStub(chars) else m.content,
         calls := if HasBigArgs(m.calls) then StubCalls(m.calls) else m.calls)
  }

  lemma {:induction false} ElisionShorter(n: nat)
    requires n > LONG_CHARS
    ensures 82 + Digits(n) < n
  {
    DigitsBound(n);
  }

  lemma {:induction false} StubCallsShrink(calls: seq<ToolCall>)
    ensures CallsChars(StubCalls(calls)) <= CallsChars(calls)
    ensures HasBigArgs(calls) ==> CallsChars(StubCalls(calls)) < CallsChars(calls)
    ensures !HasBigArgs(StubCalls(calls))
  {
    if calls != [] {
      var stubs := StubCalls(calls);
      assert stubs[1..] == StubCalls(calls[1..]);
      StubCallsShrink(calls[1..]);
      if ArgsChars(calls[0].args) > LONG_CHARS {
        ElisionShorter(ArgsChars(calls[0].args));
      }
    }
  }

  lemma {:induction false} StubShrinks(m: Message, prose: bool)
    requires Stubbable(m, prose)
    ensures MessageChars(Stub(m, prose)) < MessageChars(m)
  {
    StubCallsShrink(m.calls);
    if LongProse(m) {
      ElisionShorter(ContentChars(m.content));
    }
  }

  /** A stub is never stubbed again; only text that was spared so far still can be. */
  lemma {:induction false} StubIsFinal(m: Message, prose: bool)
    requires Stubbable(m, prose)
    ensures !Stubbable(Stub(m, prose), false)
    ensures prose || m.role.Tool? ==> !Stubbable(Stub(m, prose), true)
  {
    StubCallsShrink(m.calls);
  }

  // ---------------------------------------------------------------- what stubbing preserves

  /** `m'` is `m`, or `m` with some of its text or arguments replaced by their stubs. */
  predicate Weakened(m: Message, m': Message) {
    && m'.role == m.role
    && m'.name == m.name
    && m'.callId == m.callId
    && |m'.calls| == |m.calls|
    && (forall i :: 0 <= i < |m.calls| ==>
          && m'.calls[i].id == m.calls[i].id
          && m'.calls[i].name == m.calls[i].name
          && (m'.calls[i].args == m.calls[i].args || m'.calls[i].args.ElidedArgs?))
    && (m'.content == m.content
        || (!Marked(m.content) && m.role.Tool? &&
            m'.content == ToolStub(m.name, ContentChars(m.content)))
        || (!Marked(m.content) && m.role.Assistant? &&
            m'.content == ProseStub(ContentChars(m.content))))
    && (Standing(m) ==> m' == m)
  }

  lemma {:induction false} WeakenedTransitive(a: Message, b: Message, c: Message)
    requires Weakened(a, b) && Weakened(b, c)
    ensures Weakened(a, c)
  {
    forall i | 0 <= i < |a.calls|
      ensures c.calls[i].id == a.calls[i].id && c.calls[i].name == a.calls[i].name
      ensures c.calls[i].args == a.calls[i].args || c.calls[i].args.ElidedArgs?
    {
      assert b.calls[i].id == a.calls[i].id;
    }
  }

  lemma {:induction false} StubWeakens(m: Message, prose: bool)
    requires Stubbable(m, prose)
    ensures Weakened(m, Stub(m, prose))
  {
  }

  ghost predicate Pointwise(ms: seq<Message>, ms': seq<Message>) {
    |ms'| == |ms| && forall i :: 0 <= i < |ms| ==> Weakened(ms[i], ms'[i])
  }

  lemma {:induction false} PointwiseTransitive(a: seq<Message>, b: seq<Message>, c: seq<Message>)
    requires Pointwise(a, b) && Pointwise(b, c)
    ensures Pointwise(a, c)
  {
    forall i | 0 <= i < |a|
      ensures Weakened(a[i], c[i])
    {
      WeakenedTransitive(a[i], b[i], c[i]);
    }
  }

  // ---------------------------------------------------------------- first pass: largest first

  /** Index `a` goes before index `b`: larger first, ties oldest first. */
  predicate Earlier(sizes: seq<nat>, a: nat, b: nat)
    requires a < |sizes| && b < |sizes|
  {
    sizes[a] > sizes[b] || (sizes[a] == sizes[b] && a < b)
  }

  predicate Below(order: seq<nat>, n: nat) {
    forall k :: 0 <= k < |order| ==> order[k] < n
  }

  function Insert(sizes: seq<nat>, order: seq<nat>, i: nat): (r: seq<nat>)
    requires i < |sizes| && Below(order, |sizes|)
    ensures |r| == |order| + 1
    ensures Below(r, |sizes|)
  {
    if order == [] then [i]
    else if Earlier(sizes, i, order[0]) then [i] + order
    else [order[0]] + Insert(sizes, order[1..], i)
  }

  /** The indices below `n`, sorted. */
  function LargestFirst(sizes: seq<nat>, n: nat): (r: seq<nat>)
    requires n <= |sizes|
    ensures |r| == n
    ensures Below(r, |sizes|)
  {
    if n == 0 then [] else Insert(sizes, LargestFirst(sizes, n - 1), n - 1)
  }

  function Sizes(ms: seq<Message>): (r: seq<nat>)
    ensures |r| == |ms|
    ensures forall i :: 0 <= i < |ms| ==> r[i] == MessageChars(ms[i])
  {
    seq(|ms|, i requires 0 <= i < |ms| => MessageChars(ms[i]))
  }

  /** Stubs in the given order until there is `enough` relief. */
  function StubInOrder(ms: seq<Message>, order: seq<nat>, enough: seq<Message> -> bool)
    : (r: (seq<Message>, nat))
    requires Below(order, |ms|)
    ensures |r.0| == |ms|
    decreases |order|
  {
    if order == [] then (ms, 0)
    else if !Stubbable(ms[order[0]], false) then StubInOrder(ms, order[1..], enough)
    else
      var ms' := ms[order[0] := Stub(ms[order[0]], false)];
      if enough(ms') then (ms', 1)
      else
        var r := StubInOrder(ms', order[1..], enough);
        (r.0, r.1 + 1)
  }

  // ---------------------------------------------------------------- second pass: whole exchanges

  /** The last index below `n` with the given role, or -1. */
  function LastOf(ms: seq<Message>, role: Role, n: nat): (i: int)
    requires n <= |ms|
    ensures -1 <= i < n
  {
    if n == 0 then -1
    else if ms[n - 1].role == role then n - 1
    else LastOf(ms, role, n - 1)
  }

  /** Where the latest assistant message is; 0 when there is none. */
  function Latest(ms: seq<Message>): (i: nat)
    ensures i <= |ms|
  {
    Max(0, LastOf(ms, Assistant, |ms|))
  }

  /** Just behind the last user message in front of `latest`. */
  function AfterUser(ms: seq<Message>, latest: nat): (i: nat)
    requires latest <= |ms|
    ensures i <= latest
  {
    LastOf(ms, User, latest) + 1
  }

  /** Just behind the run of tool results that starts at `i`. */
  function SkipTools(ms: seq<Message>, i: nat): (r: nat)
    requires i <= |ms|
    ensures i <= r <= |ms|
    decreases |ms| - i
  {
    if i < |ms| && ms[i].role.Tool? then SkipTools(ms, i + 1) else i
  }

  /** The first exchange that starts in `[i, before)`, if it also ends there. */
  function NextExchange(ms: seq<Message>, i: nat, before: nat): (r: Option<(nat, nat)>)
    requires before <= |ms|
    ensures r.Some? ==> i <= r.value.0 < r.value.1 <= before
    decreases before - i
  {
    if i >= before then None
    else if !ms[i].role.Assistant? then NextExchange(ms, i + 1, before)
    else if SkipTools(ms, i + 1) <= before then Some((i, SkipTools(ms, i + 1)))
    else None
  }

  /** `splice(start, end - start)`. */
  function Cut<T>(s: seq<T>, start: nat, end: nat): (r: seq<T>)
    requires start <= end <= |s|
    ensures |r| == |s| - (end - start)
  {
    s[..start] + s[end..]
  }

  /** Drops the oldest whole exchanges of `[from, before)` until there is `enough` room. */
  function DropOldest(ms: seq<Message>, from: nat, before: nat, enough: seq<Message> -> bool)
    : (r: seq<Message>)
    requires before <= |ms|
    ensures |r| <= |ms| && |ms| - |r| <= before
    decreases |ms|
  {
    var next := NextExchange(ms, from, before);
    if enough(ms) || next.None? then ms
    else
      var (start, end) := next.value;
      DropOldest(Cut(ms, start, end), from, before - (end - start), enough)
  }

  /** Stubs message by message from `i` up to `latest`, prose included, until it fits. */
  function StubUpTo(ms: seq<Message>, i: nat, latest: nat, enough: seq<Message> -> bool)
    : (r: (seq<Message>, nat))
    requires latest <= |ms|
    ensures |r.0| == |ms|
    decreases latest - i
  {
    if i >= latest || enough(ms) then (ms, 0)
    else if !Stubbable(ms[i], true) then StubUpTo(ms, i + 1, latest, enough)
    else
      var r := StubUpTo(ms[i := Stub(ms[i], true)], i + 1, latest, enough);
      (r.0, r.1 + 1)
  }

  // ---------------------------------------------------------------- the whole algorithm

  /** Positions of the tool results from `i` on, in order. */
  function ToolPositions(ms: seq<Message>, i: nat): (r: seq<nat>)
    requires i <= |ms|
    ensures forall j :: 0 <= j < |r| ==> i <= r[j] < |ms| && ms[r[j]].role.Tool?
    decreases |ms| - i
  {
    if i == |ms| then []
    else (if ms[i].role.Tool? then [i] else []) + ToolPositions(ms, i + 1)
  }

  /** The algorithm fails on a transcript that opens with a tool result. */
  predicate Compactable(ms: seq<Message>) {
    ms != [] ==> !ms[0].role.Tool?
  }

  /** The first protected position: one in front of the sixth-newest tool result. */
  function ProtectFrom(ms: seq<Message>): (i: nat)
    requires Compactable(ms)
    ensures i <= |ms|
  {
    var tools := ToolPositions(ms, 0);
    if tools == [] then |ms|
    else
      assert tools[Max(0, |tools| - KEEP_RECENT)] != 0;
      tools[Max(0, |tools| - KEEP_RECENT)] - 1
  }

  function Over(ms: seq<Message>, rq: Request): int {
    Max(Estimate(ms, rq), rq.lastInput.GetOr(0))
  }

  function Target(rq: Request): real {
    COMPACT_TO * rq.window as real
  }

  /** Chars that must go so that a count of `over` tokens lands under `target`. */
  function MustRemove(over: real, target: real, ratio: real): (chars: real)
    requires ratio > 0.0
    ensures chars >= 0.0
  {
    var x := (over - target) / ratio;
    if x > 0.0 then x else 0.0
  }

  predicate RemovedEnough(over: int, removed: int, rq: Request)
    requires ValidRequest(rq)
  {
    removed as real >= MustRemove(over as real, Target(rq), rq.ratio)
  }

  /** The first pass stops once the real and the estimated count are both under the target. */
  predicate EnoughRemoved(ms: seq<Message>, ms': seq<Message>, rq: Request)
    requires ValidRequest(rq)
  {
    && RemovedEnough(Over(ms, rq), Chars(ms) - Chars(ms'), rq)
    && Estimate(ms', rq) as real <= Target(rq)
  }

  predicate PastCompactAt(ms: seq<Message>, rq: Request) {
    Over(ms, rq) as real > COMPACT_AT * rq.window as real
  }

  /**
   * The tests one compaction runs on the transcript as it shrinks: whether the prompt was
   * over `COMPACT_AT` to begin with, and the three conditions its loops stop on.
   */
  datatype Plan = Plan(
    crowded: bool,
    relieved: seq<Message> -> bool,
    snug: seq<Message> -> bool,
    roomy: seq<Message> -> bool)

  function PlanFor(ms: seq<Message>, rq: Request): (p: Plan)
    requires ValidRequest(rq)
    ensures p.crowded == PastCompactAt(ms, rq)
    ensures forall x :: p.relieved(x) <==> EnoughRemoved(ms, x, rq)
    ensures forall x :: p.snug(x) <==> Fits(x, rq, FIT_AT)
    ensures forall x :: p.roomy(x) <==> Fits(x, rq, FIT_TO)
  {
    Plan(PastCompactAt(ms, rq),
         x => EnoughRemoved(ms, x, rq),
         x => Fits(x, rq, FIT_AT),
         x => Fits(x, rq, FIT_TO))
  }

  function FirstPass(ms: seq<Message>, plan: Plan): (r: (seq<Message>, nat))
    requires Compactable(ms)
    ensures |r.0| == |ms|
  {
    if plan.crowded then
      StubInOrder(ms, LargestFirst(Sizes(ms), ProtectFrom(ms)), plan.relieved)
    else (ms, 0)
  }

  /** Stub everything before the latest exchange, then drop what may be dropped. */
  function StubAndDrop(ms: seq<Message>, from: nat, latest: nat, enough: seq<Message> -> bool)
    : (r: (seq<Message>, nat))
    requires latest <= |ms|
  {
    var s := StubUpTo(ms, 0, latest, enough);
    var t := DropOldest(s.0, from, latest, enough);
    (t, s.1 + |s.0| - |t|)
  }

  /** Drop the oldest, already stubbed exchanges first; then stub and drop the others. */
  function SecondPass(ms: seq<Message>, protectFrom: nat, enough: seq<Message> -> bool)
    : (r: (seq<Message>, nat))
  {
    var latest := Latest(ms);
    var from := AfterUser(ms, latest);
    var t := DropOldest(ms, from, Min(protectFrom, latest), enough);
    var r := StubAndDrop(t, from, latest - (|ms| - |t|), enough);
    (r.0, |ms| - |t| + r.1)
  }

  function CompactedBy(ms: seq<Message>, plan: Plan): (r: (seq<Message>, nat))
    requires Compactable(ms)
  {
    if !plan.crowded && plan.snug(ms) then (ms, 0)
    else
      var first := FirstPass(ms, plan);
      if plan.snug(first.0) then first
      else
        var second := SecondPass(first.0, ProtectFrom(ms), plan.roomy);
        (second.0, first.1 + second.1)
  }

  function Compacted(ms: seq<Message>, rq: Request): (r: (seq<Message>, nat))
    requires Compactable(ms) && ValidRequest(rq)
  {
    CompactedBy(ms, PlanFor(ms, rq))
  }
}
