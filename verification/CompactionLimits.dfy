/** When compaction starts and where it stops, in terms of the text that goes over the wire. */
module CompactionLimits {
  import opened Common
  import opened Conversation
  import opened Compaction
  import opened CompactionTheorems

  // ---------------------------------------------------------------- the text on the wire

  /** What compaction writes in place of a tool result. */
  function ToolStubText(tool: Option<string>, chars: nat): string {
    STUB_PREFIX + ": an earlier tool result" + (if tool.Some? then " of " + tool.value else "")
    + " (" + Decimal(chars)
    + " chars) was elided to fit the context window. Run the tool again if you still need it.]"
  }

  /** What it writes in place of the assistant's text. */
  function ProseStubText(chars: nat): string {
    STUB_PREFIX + ": earlier assistant text (" + Decimal(chars)
    + " chars) was elided to fit the context window.]"
  }

  /** What it writes in place of a call's arguments. */
  function ElidedArgsText(chars: nat): string {
    "{\"__compacted\":\"" + Decimal(chars) + " chars of arguments elided\"}"
  }

  function ContentText(c: Content): string {
    match c
    case Text(t) => t
    case ToolStub(tool, n) => ToolStubText(tool, n)
    case ProseStub(n) => ProseStubText(n)
  }

  function ArgsText(a: Args): string {
    match a
    case Json(t, _) => t
    case ElidedArgs(n) => ElidedArgsText(n)
  }

  function CallsText(calls: seq<ToolCall>): string {
    if calls == [] then "" else ArgsText(calls[0].args) + calls[0].name + CallsText(calls[1..])
  }

  /** All messages: each its content, a separator, and the arguments and names of its calls. */
  function WireText(ms: seq<Message>): string {
    if ms == [] then "" else ContentText(ms[0].content) + "\n" + CallsText(ms[0].calls) + WireText(ms[1..])
  }

  lemma {:induction false} ContentMeasured(c: Content)
    ensures ContentChars(c) == |ContentText(c)|
    ensures Marked(c) <==> STUB_PREFIX <= ContentText(c)
  {
    hide Decimal, Digits;
    match c {
      case Text(_) =>
      case ToolStub(tool, n) =>
        assert ToolStubText(tool, n)[..|STUB_PREFIX|] == STUB_PREFIX;
      case ProseStub(n) =>
        assert ProseStubText(n)[..|STUB_PREFIX|] == STUB_PREFIX;
    }
  }

  lemma {:induction false} CallsMeasured(calls: seq<ToolCall>)
    ensures CallsChars(calls) == |CallsText(calls)|
  {
    hide Decimal, Digits;
    if calls != [] {
      CallsMeasured(calls[1..]);
    }
  }

  /** The size of a conversation is the length of its text. */
  lemma {:induction false} WireMeasured(ms: seq<Message>)
    ensures Chars(ms) == |WireText(ms)|
  {
    if ms != [] {
      ContentMeasured(ms[0].content);
      CallsMeasured(ms[0].calls);
      WireMeasured(ms[1..]);
    }
  }

  /** The length of the text and of the schemas, at the measured ratio. */
  ghost function WireTokens(ms: seq<Message>, rq: Request): real {
    (|WireText(ms)| + rq.schemaChars) as real * rq.ratio
  }

  /** `tokens` is `x`, rounded up. */
  ghost predicate RoundedUp(tokens: int, x: real) {
    tokens as real - 1.0 < x <= tokens as real
  }

  lemma {:induction false} EstimateMeasured(ms: seq<Message>, rq: Request)
    ensures RoundedUp(Estimate(ms, rq), WireTokens(ms, rq))
  {
    hide Chars, WireText, Times;
    WireMeasured(ms);
    var n := Chars(ms) + rq.schemaChars;
    TimesIsProduct(n, rq.ratio);
    assert Estimate(ms, rq) == Ceil(Times(n, rq.ratio));
  }

  /** A request fits if its tokens, rounded up, and the reserve are within the share of the window. */
  lemma {:induction false} FitsExactly(ms: seq<Message>, rq: Request, share: real)
    ensures Fits(ms, rq, share) <==>
              exists tokens: int ::
                RoundedUp(tokens, WireTokens(ms, rq)) && (tokens + rq.reserve) as real <= share * rq.window as real
  {
    hide Estimate, WireTokens, RoundedUp;
    EstimateMeasured(ms, rq);
    forall tokens: int | RoundedUp(tokens, WireTokens(ms, rq))
      ensures tokens == Estimate(ms, rq)
    {
      RoundedOnce(tokens, Estimate(ms, rq), WireTokens(ms, rq));
    }
  }

  lemma {:induction false} RoundedOnce(a: int, b: int, x: real)
    requires RoundedUp(a, x) && RoundedUp(b, x)
    ensures a == b
  {
    assert (a - b) as real < 1.0 && (b - a) as real < 1.0;
  }

  // ---------------------------------------------------------------- what can be stubbed

  /** Text that is longer than its stub would be, and no stub itself. */
  ghost predicate LongResult(m: Message) {
    var text := ContentText(m.content);
    !(STUB_PREFIX <= text) && |ToolStubText(m.name, |text|)| < |text|
  }

  ghost predicate LongText(m: Message) {
    !(STUB_PREFIX <= ContentText(m.content)) && |ContentText(m.content)| > LONG_CHARS
  }

  /** A call whose arguments are long, and were not elided before. */
  ghost predicate LongCall(c: ToolCall) {
    |ArgsText(c.args)| > LONG_CHARS && !c.args.ElidedArgs? && !c.args.keyed
  }

  ghost predicate SomeLongCall(calls: seq<ToolCall>) {
    exists i :: 0 <= i < |calls| && LongCall(calls[i])
  }

  lemma {:induction false} LongCallsFound(calls: seq<ToolCall>)
    ensures HasBigArgs(calls) <==> SomeLongCall(calls)
  {
    hide Decimal, Digits, ElidedArgsText;
    if calls != [] {
      LongCallsFound(calls[1..]);
      if SomeLongCall(calls[1..]) {
        var i :| 0 <= i < |calls[1..]| && LongCall(calls[1..][i]);
        assert LongCall(calls[i + 1]);
      }
      if SomeLongCall(calls) && !LongCall(calls[0]) {
        var i :| 0 <= i < |calls| && LongCall(calls[i]);
        assert LongCall(calls[1..][i - 1]);
      }
    }
  }

  /** Exactly long results and long arguments can be stubbed, and where asked long texts. */
  lemma {:induction false} StubbableExactly(m: Message, prose: bool)
    ensures Stubbable(m, prose) <==>
              || (m.role.Tool? && LongResult(m))
              || (m.role.Assistant? && (SomeLongCall(m.calls) || (prose && LongText(m))))
  {
    hide Decimal, Digits, ToolStubText, ProseStubText;
    ContentMeasured(m.content);
    ContentMeasured(ToolStub(m.name, ContentChars(m.content)));
    LongCallsFound(m.calls);
  }

  /** What the text of a stubbed message says; everything else of it stays. */
  lemma {:induction false} StubWrites(m: Message, prose: bool)
    requires Stubbable(m, prose)
    ensures var r, n := Stub(m, prose), |ContentText(m.content)|;
            && r.role == m.role && r.name == m.name && r.callId == m.callId && |r.calls| == |m.calls|
            && ContentText(r.content) == (if m.role.Tool? then ToolStubText(m.name, n)
                                          else if prose && LongText(m) then ProseStubText(n)
                                          else ContentText(m.content))
            && forall i :: 0 <= i < |r.calls| ==>
                 && r.calls[i].id == m.calls[i].id && r.calls[i].name == m.calls[i].name
                 && r.calls[i].args == if m.role.Assistant? && SomeLongCall(m.calls)
                                          && |ArgsText(m.calls[i].args)| > LONG_CHARS
                                       then ElidedArgs(|ArgsText(m.calls[i].args)|) else m.calls[i].args
  {
    hide Decimal, Digits, ToolStubText, ProseStubText;
    ContentMeasured(m.content);
    LongCallsFound(m.calls);
    forall i | 0 <= i < |m.calls|
      ensures ArgsChars(m.calls[i].args) == |ArgsText(m.calls[i].args)|
    {
      CallsMeasured([m.calls[i]]);
    }
  }

  /** Nothing that compaction may remove is left, told from the texts. */
  lemma {:induction false} ExhaustedMeans(ms: seq<Message>, rq: Request, i: nat)
    requires Compactable(ms) && ValidRequest(rq)
    requires !Fits(Compacted(ms, rq).0, rq, FIT_AT)
    requires var r := Compacted(ms, rq).0;
             i < |r| && exists j :: i < j < |r| && r[j].role.Assistant?
    ensures var m := Compacted(ms, rq).0[i];
            && (m.role.Tool? ==> !LongResult(m))
            && (m.role.Assistant? ==> !LongText(m) && !SomeLongCall(m.calls))
  {
    hide Compacted, Fits;
    CompactedExhausts(ms, rq);
    var r := Compacted(ms, rq).0;
    LastOfFinds(r, Assistant, |r|);
    StubbableExactly(r[i], true);
  }

  // ---------------------------------------------------------------- where it looks

  function ToolsFrom(ms: seq<Message>, i: nat): set<nat> {
    set j: nat | i <= j < |ms| && ms[j].role.Tool?
  }

  lemma {:induction false} ToolPositionsCount(ms: seq<Message>, i: nat)
    requires i <= |ms|
    ensures |ToolPositions(ms, i)| == |ToolsFrom(ms, i)|
    ensures forall k :: 0 <= k < |ToolPositions(ms, i)| ==>
              |ToolsFrom(ms, ToolPositions(ms, i)[k])| == |ToolPositions(ms, i)| - k
    decreases |ms| - i
  {
    if i < |ms| {
      ToolPositionsCount(ms, i + 1);
      if ms[i].role.Tool? {
        assert ToolsFrom(ms, i) == ToolsFrom(ms, i + 1) + {i};
      } else {
        assert ToolsFrom(ms, i) == ToolsFrom(ms, i + 1);
      }
    }
  }

  /** The sixth-newest result is the sixth from the end, or the first if there are fewer. */
  lemma {:induction false} SixthNewestIs(ms: seq<Message>)
    requires ToolPositions(ms, 0) != []
    ensures |ToolsFrom(ms, SixthNewest(ms))| == Min(6, |ToolsFrom(ms, 0)|)
  {
    ToolPositionsCount(ms, 0);
  }

  /** The two anchors: the latest assistant message, and the place behind the last user message before it. */
  lemma {:induction false} AnchorsAre(ms: seq<Message>)
    ensures var latest := Latest(ms);
            && (forall j :: latest < j < |ms| ==> !ms[j].role.Assistant?)
            && (latest > 0 ==> latest < |ms| && ms[latest].role.Assistant?)
    ensures var from, latest := AfterUser(ms, Latest(ms)), Latest(ms);
            && (from == 0 || ms[from - 1].role.User?)
            && (forall j :: from <= j < latest ==> !ms[j].role.User?)
  {
    LastOfFinds(ms, Assistant, |ms|);
    LastOfFinds(ms, User, Latest(ms));
  }

  /** The exchange dropped next is the oldest of the stretch, with all its results. */
  lemma {:induction false} NextIsOldest(ms: seq<Message>, i: nat, before: nat)
    requires before <= |ms| && NextExchange(ms, i, before).Some?
    ensures var (start, end) := NextExchange(ms, i, before).value;
            && i <= start && ms[start].role.Assistant? && (forall j :: i <= j < start ==> !ms[j].role.Assistant?)
            && (forall j :: start < j < end ==> ms[j].role.Tool?) && (end < |ms| ==> !ms[end].role.Tool?)
    decreases before - i
  {
    if !ms[i].role.Assistant? {
      NextIsOldest(ms, i + 1, before);
    } else {
      SkipToolsFinds(ms, i + 1);
    }
  }

  // ---------------------------------------------------------------- when it starts

  /** The estimate and the last count are at most 60 % of the window. */
  ghost predicate Roomy(ms: seq<Message>, rq: Request) {
    && Estimate(ms, rq) as real <= 0.6 * rq.window as real
    && (rq.lastInput.Some? ==> rq.lastInput.value as real <= 0.6 * rq.window as real)
  }

  /** A conversation with room, and a request that fits, are left alone; with room nothing is stubbed first. */
  lemma {:induction false} RoomyIsUntouched(ms: seq<Message>, rq: Request)
    requires Compactable(ms) && ValidRequest(rq) && Roomy(ms, rq)
    ensures FirstPass(ms, PlanFor(ms, rq)) == (ms, 0)
    ensures Fits(ms, rq, FIT_AT) ==> Compacted(ms, rq) == (ms, 0)
  {
  }

  // ---------------------------------------------------------------- where it stops

  /** `r` is `x` with one message stubbed. */
  ghost predicate JustStubbed(x: seq<Message>, r: seq<Message>, prose: bool) {
    exists i :: 0 <= i < |x| && Stubbable(x[i], prose) && r == x[i := Stub(x[i], prose)]
  }

  /** `r` is `x` with one whole exchange dropped. */
  ghost predicate JustDropped(x: seq<Message>, r: seq<Message>) {
    exists start: nat, end: nat :: Exchange(x, start, end) && r == Cut(x, start, end)
  }

  /** The list in front of the last stub did not have enough relief, or was the first one. */
  lemma {:induction false} StubInOrderStops(ms: seq<Message>, order: seq<nat>, enough: seq<Message> -> bool)
    requires Below(order, |ms|) && StubInOrder(ms, order, enough).1 > 0
    ensures exists x ::
              && JustStubbed(x, StubInOrder(ms, order, enough).0, false)
              && Chars(x) <= Chars(ms) && (x == ms || !enough(x))
    decreases |order|
  {
    if !Stubbable(ms[order[0]], false) {
      StubInOrderStops(ms, order[1..], enough);
    } else {
      var ms' := ms[order[0] := Stub(ms[order[0]], false)];
      assert JustStubbed(ms, ms', false);
      StubAt(ms, order[0], false);
      if !enough(ms') && StubInOrder(ms', order[1..], enough).1 > 0 {
        StubInOrderStops(ms', order[1..], enough);
      } else if !enough(ms') {
        StubInOrderFacts(ms', order[1..], enough);
      }
    }
  }

  lemma {:induction false} StubUpToStops(ms: seq<Message>, i: nat, latest: nat, enough: seq<Message> -> bool)
    requires latest <= |ms| && StubUpTo(ms, i, latest, enough).1 > 0
    ensures exists x :: JustStubbed(x, StubUpTo(ms, i, latest, enough).0, true) && !enough(x)
    decreases latest - i
  {
    if !Stubbable(ms[i], true) {
      StubUpToStops(ms, i + 1, latest, enough);
    } else {
      var ms' := ms[i := Stub(ms[i], true)];
      assert JustStubbed(ms, ms', true);
      if StubUpTo(ms', i + 1, latest, enough).1 > 0 {
        StubUpToStops(ms', i + 1, latest, enough);
      } else {
        StubUpToShrinks(ms', i + 1, latest, enough);
      }
    }
  }

  lemma {:induction false} DroppedNow(ms: seq<Message>, start: nat, end: nat)
    requires Exchange(ms, start, end)
    ensures JustDropped(ms, Cut(ms, start, end))
  {
  }

  lemma {:induction false} DropOldestStops(ms: seq<Message>, from: nat, before: nat, enough: seq<Message> -> bool)
    requires before <= |ms| && |DropOldest(ms, from, before, enough)| < |ms|
    ensures exists x :: JustDropped(x, DropOldest(ms, from, before, enough)) && !enough(x)
    decreases |ms|
  {
    hide NextExchange, SkipTools, JustDropped, Chars;
    var (start, end) := NextExchange(ms, from, before).value;
    NextExchangeFinds(ms, from, before);
    var ms' := Cut(ms, start, end);
    assert JustDropped(ms, ms') by {
      DroppedNow(ms, start, end);
    }
    if |DropOldest(ms', from, before - (end - start), enough)| < |ms'| {
      DropOldestStops(ms', from, before - (end - start), enough);
    } else {
      DropOldestFacts(ms', from, before - (end - start), enough);
    }
  }

  /** One more thing was stubbed or dropped. */
  ghost predicate OneStep(x: seq<Message>, r: seq<Message>) {
    JustStubbed(x, r, false) || JustStubbed(x, r, true) || JustDropped(x, r)
  }

  lemma {:induction false} SecondPassStops(ms: seq<Message>, protectFrom: nat, enough: seq<Message> -> bool)
    requires SecondPass(ms, protectFrom, enough).1 > 0
    ensures exists x :: OneStep(x, SecondPass(ms, protectFrom, enough).0) && !enough(x)
  {
    hide DropOldest, StubUpTo, LastOf, JustStubbed, JustDropped;
    var latest := Latest(ms);
    var from := AfterUser(ms, latest);
    var t := DropOldest(ms, from, Min(protectFrom, latest), enough);
    var latest1 := latest - (|ms| - |t|);
    var s := StubUpTo(t, 0, latest1, enough);
    var r := DropOldest(s.0, from, latest1, enough);
    if |r| < |s.0| {
      DropOldestStops(s.0, from, latest1, enough);
    } else {
      DropOldestFacts(s.0, from, latest1, enough);
      if s.1 > 0 {
        StubUpToStops(t, 0, latest1, enough);
      } else {
        StubUpToShrinks(t, 0, latest1, enough);
        DropOldestStops(ms, from, Min(protectFrom, latest), enough);
      }
    }
  }

  /** Enough is removed from a count exactly if what is left of it is under the target. */
  lemma {:induction false} RemovedExactly(over: int, removed: nat, rq: Request)
    requires ValidRequest(rq)
    ensures RemovedEnough(over, removed, rq)
            <==> over as real - removed as real * rq.ratio <= 0.45 * rq.window as real
  {
    var x := (over as real - Target(rq)) / rq.ratio;
    assert x * rq.ratio == over as real - Target(rq);
    if RemovedEnough(over, removed, rq) {
      RemovedEnoughMeans(over, removed, rq);
    } else {
      ScaleStrict(removed as real, x, rq.ratio);
    }
  }

  /** The exact test of the first pass. */
  lemma {:induction false} ReliefExactly(ms: seq<Message>, r: seq<Message>, rq: Request)
    requires ValidRequest(rq) && Chars(r) <= Chars(ms)
    ensures EnoughRemoved(ms, r, rq) <==> RealCountUnderTarget(ms, r, rq)
  {
    hide Estimate, Chars, RemovedEnough;
    var removed := Chars(ms) - Chars(r);
    RemovedExactly(Over(ms, rq), removed, rq);
    ScaleMonotone(0.0, removed as real, rq.ratio);
  }

  lemma {:induction false} ScaleStrict(x: real, y: real, k: real)
    requires x < y && k > 0.0
    ensures x * k < y * k
  {
  }

  /**
   * Compaction never goes on once its target is met. In front of its last stub or drop, the
   * first pass had not brought both counts under `COMPACT_TO`, or had done nothing yet; and
   * the second pass, which runs only if the request does not fit `FIT_AT`, had not reached `FIT_TO`.
   */
  lemma {:induction false} CompactedNoFurther(ms: seq<Message>, rq: Request)
    requires Compactable(ms) && ValidRequest(rq) && Compacted(ms, rq).1 > 0
    ensures var first := FirstPass(ms, PlanFor(ms, rq)).0;
            exists x ::
              && OneStep(x, Compacted(ms, rq).0)
              && (|| (Compacted(ms, rq).0 == first && !Roomy(ms, rq) && (x == ms || !RealCountUnderTarget(ms, x, rq)))
                  || (!Fits(first, rq, FIT_AT) && !Fits(x, rq, FIT_TO)))
  {
    hide StubInOrder, SecondPass, Fits, RealCountUnderTarget, EnoughRemoved, JustStubbed, JustDropped, Chars;
    var plan := PlanFor(ms, rq);
    var first := FirstPass(ms, plan).0;
    var second := SecondPass(first, ProtectFrom(ms), plan.roomy);
    SecondPassShrinks(first, ProtectFrom(ms), plan.roomy);
    if !plan.snug(first) && second.1 > 0 {
      SecondPassStops(first, ProtectFrom(ms), plan.roomy);
    } else {
      FirstPassStopped(ms, rq);
      var x :| && JustStubbed(x, first, false)
               && !Roomy(ms, rq) && (x == ms || !RealCountUnderTarget(ms, x, rq));
      assert Compacted(ms, rq).0 == first;
      assert OneStep(x, Compacted(ms, rq).0);
    }
  }

  lemma {:induction false} FirstPassStopped(ms: seq<Message>, rq: Request)
    requires Compactable(ms) && ValidRequest(rq) && FirstPass(ms, PlanFor(ms, rq)).1 > 0
    ensures exists x ::
              && JustStubbed(x, FirstPass(ms, PlanFor(ms, rq)).0, false)
              && !Roomy(ms, rq) && (x == ms || !RealCountUnderTarget(ms, x, rq))
  {
    hide StubInOrder, Fits, RealCountUnderTarget, EnoughRemoved, JustStubbed, Chars;
    var plan := PlanFor(ms, rq);
    var order := LargestFirst(Sizes(ms), ProtectFrom(ms));
    StubInOrderStops(ms, order, plan.relieved);
    var x :| JustStubbed(x, StubInOrder(ms, order, plan.relieved).0, false)
             && Chars(x) <= Chars(ms) && (x == ms || !plan.relieved(x));
    ReliefExactly(ms, x, rq);
  }
}
