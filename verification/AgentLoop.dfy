/** The vocabulary of one agent run: its inputs, its traces and its accounts. */
module AgentLoop {
  import opened Common
  import opened Conversation
  import opened Compaction
  import opened CompactionTheorems
  import opened OperatorInput

  const DEFAULT_RATIO := 0.25
  const OPERATOR_PER_TURN := 4

  datatype Config = Config(
    maxIterations: nat,
    maxRetries: nat,
    window: Option<nat>,
    threshold: real,
    maxTokens: nat,
    schemaChars: nat,
    tokenLimit: Option<nat>,
    costLimit: Option<real>,
    selfCheck: Option<string>,
    polls: bool,
    maxIdentical: nat,
    maxPerTool: Option<nat>)

  /** The range the executor checks its inputs for, with a threshold above `FIT_AT`. */
  ghost predicate ValidConfig(cfg: Config) {
    cfg.maxIterations > 0 && FIT_AT < cfg.threshold <= 1.0
  }

  // ---------------------------------------------------------------- the world around a run

  datatype RawCall = RawCall(id: string, name: string, json: string, keyed: bool, malformed: bool)

  datatype Usage = Usage(input: Option<nat>, output: Option<nat>, cost: Option<real>)

  datatype Reply = Reply(content: string, calls: seq<RawCall>, usage: Usage)

  /** How one `chat` call ends: an answer, an HTTP error with its status, or another error. */
  datatype ChatOutcome = Answered(reply: Reply) | HttpError(status: nat) | OtherError

  datatype ToolOutcome = Result(text: string, isError: bool) | Threw(text: string)

  /**
   * Everything the run asks of its surroundings, each kind of question indexed by how often
   * it was asked before: the k-th look at the abort signal, the k-th request, the k-th poll,
   * the k-th tool call. Quantifying over all worlds covers every behaviour of the model,
   * the tools, the operator, the clock and the abort signal.
   */
  datatype World = World(
    aborted: nat -> bool,
    chat: nat -> ChatOutcome,
    poll: nat -> PollOutcome,
    resolve: (nat, string) -> Option<string>,
    provided: (nat, string) -> bool,
    tool: nat -> ToolOutcome,
    wording: nat -> string)

  predicate Transient(o: ChatOutcome) {
    o.HttpError? && o.status in {429, 502, 503, 504, 0}
  }

  // ---------------------------------------------------------------- tool-call ids

  function FallbackId(name: string, n: nat): string {
    "call_" + name + "_" + Decimal(n)
  }

  /** The calls with an id synthesized for each one that came without. */
  function Synthesize(raws: seq<RawCall>, counter: nat): (calls: seq<ToolCall>)
    ensures |calls| == |raws|
  {
    seq(|raws|, i requires 0 <= i < |raws| =>
      var raw := raws[i];
      ToolCall(if raw.id != "" then raw.id else FallbackId(raw.name, counter + i + 1),
               raw.name, Json(raw.json, raw.keyed)))
  }

  /** Ids built from different numbers differ, whatever the tool names. */
  lemma {:induction false} FallbackIdsDiffer(a: string, b: string, m: nat, n: nat)
    requires FallbackId(a, m) == FallbackId(b, n)
    ensures m == n
  {
    var x := "call_" + a;
    var y := "call_" + b;
    LastPart(x, Decimal(m), y, Decimal(n));
    DecimalInjective(m, n);
  }

  lemma {:induction false} LastPart(x: string, p: string, y: string, q: string)
    requires x + "_" + p == y + "_" + q
    requires forall i :: 0 <= i < |p| ==> p[i] != '_'
    requires forall i :: 0 <= i < |q| ==> q[i] != '_'
    ensures p == q
  {
    var s, t := x + "_" + p, y + "_" + q;
    assert s[|x|] == '_' && t[|y|] == '_';
    assert s[|x| + 1..] == p && t[|y| + 1..] == q;
  }

  /** An answered request, and the value of the trace counter when its answer came. */
  datatype Received = Received(request: seq<Message>, reply: Reply, sequence: nat)

  /** The calls of an answer, as they came and with their ids. */
  function PairsOf(a: Received): (pairs: seq<(RawCall, ToolCall)>)
    ensures |pairs| == |a.reply.calls|
  {
    Paired(a.reply.calls, Synthesize(a.reply.calls, a.sequence))
  }

  function Paired(raws: seq<RawCall>, calls: seq<ToolCall>): (pairs: seq<(RawCall, ToolCall)>)
    requires |raws| == |calls|
    ensures |pairs| == |raws|
  {
    seq(|raws|, i requires 0 <= i < |raws| => (raws[i], calls[i]))
  }

  /** All calls of a list of answers, in order. */
  function Issued(answers: seq<Received>): seq<(RawCall, ToolCall)> {
    if answers == [] then []
    else Issued(answers[..|answers| - 1]) + PairsOf(answers[|answers| - 1])
  }

  /** The numbers each answer gives to its calls lie above those of the answers before it. */
  ghost predicate Spaced(answers: seq<Received>, k: nat) {
    answers != [] ==>
      var last := answers[|answers| - 1];
      && last.sequence + 1 + |last.reply.calls| <= k
      && Spaced(answers[..|answers| - 1], last.sequence + 1)
  }

  lemma {:induction false} SpacedExtend(answers: seq<Received>, k: nat, a: Received, n: nat)
    requires Spaced(answers, k) && k <= a.sequence + 1 && a.sequence + 1 + |a.reply.calls| <= n
    ensures Spaced(answers + [a], n)
  {
    assert (answers + [a])[..|answers|] == answers;
  }

  /** The number of the i-th call issued: it goes into the call's id if it came without one. */
  function NumberAt(answers: seq<Received>, i: nat): nat
    requires i < |Issued(answers)|
  {
    var before, last := answers[..|answers| - 1], answers[|answers| - 1];
    if i < |Issued(before)| then NumberAt(before, i) else last.sequence + 1 + (i - |Issued(before)|)
  }

  lemma {:induction false} NumbersIncrease(answers: seq<Received>, k: nat, i: nat, j: nat)
    requires Spaced(answers, k) && i < j < |Issued(answers)|
    ensures NumberAt(answers, i) < NumberAt(answers, j) < k
  {
    var before, last := answers[..|answers| - 1], answers[|answers| - 1];
    var n := |Issued(before)|;
    if j < n {
      NumbersIncrease(before, last.sequence + 1, i, j);
    } else if i < n {
      NumberBelow(before, last.sequence + 1, i);
    }
  }

  lemma {:induction false} NumberBelow(answers: seq<Received>, k: nat, i: nat)
    requires Spaced(answers, k) && i < |Issued(answers)|
    ensures NumberAt(answers, i) < k
  {
    var before, last := answers[..|answers| - 1], answers[|answers| - 1];
    if i < |Issued(before)| {
      NumberBelow(before, last.sequence + 1, i);
    }
  }

  lemma {:induction false} FallbackAt(answers: seq<Received>, i: nat)
    requires i < |Issued(answers)| && Issued(answers)[i].0.id == ""
    ensures Issued(answers)[i].1.id == FallbackId(Issued(answers)[i].0.name, NumberAt(answers, i))
  {
    var before := answers[..|answers| - 1];
    if i < |Issued(before)| {
      FallbackAt(before, i);
    }
  }

  /** Every call of a run keeps the name and the arguments it came with, and the id if it had one. */
  lemma {:induction false} CallsKept(answers: seq<Received>, i: nat)
    requires i < |Issued(answers)|
    ensures var (raw, call) := Issued(answers)[i];
            && call.name == raw.name && call.args == Json(raw.json, raw.keyed)
            && (raw.id != "" ==> call.id == raw.id)
  {
    var before := answers[..|answers| - 1];
    if i < |Issued(before)| {
      CallsKept(before, i);
    }
  }

  /** Any two ids synthesized for the calls of a run differ, whatever the tool names. */
  lemma {:induction false} SynthesizedIdsDiffer(answers: seq<Received>, k: nat, i: nat, j: nat)
    requires Spaced(answers, k) && i < j < |Issued(answers)|
    requires Issued(answers)[i].0.id == "" && Issued(answers)[j].0.id == ""
    ensures Issued(answers)[i].1.id != Issued(answers)[j].1.id
  {
    FallbackAt(answers, i);
    FallbackAt(answers, j);
    NumbersIncrease(answers, k, i, j);
    if Issued(answers)[i].1.id == Issued(answers)[j].1.id {
      FallbackIdsDiffer(Issued(answers)[i].0.name, Issued(answers)[j].0.name,
                        NumberAt(answers, i), NumberAt(answers, j));
    }
  }

  // ---------------------------------------------------------------- traces and accounts

  datatype Event =
    | Boundary(iteration: nat)
    | LlmStarted(iteration: nat)
    | LlmRetried(attempt: nat)
    | LlmCall(input: nat, output: nat, cost: Option<real>)
    | LlmFailed
    | ToolStarted(callId: string)
    | ToolDone(callId: string, isError: bool)
    | RunComplete

  datatype Trace = Trace(sequence: nat, event: Event)

  /** Each trace entry carries the number of entries before it. */
  ghost predicate Numbered(traces: seq<Trace>) {
    traces != [] ==>
      && traces[|traces| - 1].sequence == |traces| - 1
      && Numbered(traces[..|traces| - 1])
  }

  lemma {:induction false} NumberedMeans(traces: seq<Trace>)
    requires Numbered(traces)
    ensures forall i :: 0 <= i < |traces| ==> traces[i].sequence == i
  {
    if traces != [] {
      NumberedMeans(traces[..|traces| - 1]);
    }
  }

  /** A request that was sent, and how it ended. */
  datatype Chat = Chat(request: seq<Message>, outcome: ChatOutcome)

  /** Every request in the list is well formed. */
  ghost predicate AllFormed(chats: seq<Chat>) {
    chats != [] ==> WellFormed(chats[|chats| - 1].request) && AllFormed(chats[..|chats| - 1])
  }

  /** Each request ended as the world says, the k-th with its k-th answer. */
  ghost predicate FromWorld(chat: nat -> ChatOutcome, chats: seq<Chat>) {
    chats != [] ==>
      && chats[|chats| - 1].outcome == chat(|chats| - 1)
      && FromWorld(chat, chats[..|chats| - 1])
  }

  /** The requests that were answered, with their answers. */
  function AnsweredOf(chats: seq<Chat>): seq<(seq<Message>, Reply)> {
    if chats == [] then []
    else
      var last := chats[|chats| - 1];
      AnsweredOf(chats[..|chats| - 1])
      + (if last.outcome.Answered? then [(last.request, last.outcome.reply)] else [])
  }

  lemma {:induction false} ChatsExtend(chat: nat -> ChatOutcome, chats: seq<Chat>, c: Chat)
    ensures AllFormed(chats + [c]) <==> AllFormed(chats) && WellFormed(c.request)
    ensures FromWorld(chat, chats + [c]) <==> FromWorld(chat, chats) && c.outcome == chat(|chats|)
    ensures c.outcome.Answered? ==>
              AnsweredOf(chats + [c]) == AnsweredOf(chats) + [(c.request, c.outcome.reply)]
    ensures !c.outcome.Answered? ==> AnsweredOf(chats + [c]) == AnsweredOf(chats)
  {
    assert (chats + [c])[..|chats|] == chats;
    assert AnsweredOf(chats) + [] == AnsweredOf(chats);
  }

  lemma {:induction false} AllFormedMeans(chats: seq<Chat>)
    requires AllFormed(chats)
    ensures forall i :: 0 <= i < |chats| ==> WellFormed(chats[i].request)
  {
    if chats != [] {
      AllFormedMeans(chats[..|chats| - 1]);
    }
  }

  lemma {:induction false} FromWorldMeans(chat: nat -> ChatOutcome, chats: seq<Chat>)
    requires FromWorld(chat, chats)
    ensures forall k :: 0 <= k < |chats| ==> chats[k].outcome == chat(k)
  {
    if chats != [] {
      FromWorldMeans(chat, chats[..|chats| - 1]);
    }
  }

  function InputSum(traces: seq<Trace>): nat {
    if traces == [] then 0
    else
      var e := traces[|traces| - 1].event;
      InputSum(traces[..|traces| - 1]) + (if e.LlmCall? then e.input else 0)
  }

  function OutputSum(traces: seq<Trace>): nat {
    if traces == [] then 0
    else
      var e := traces[|traces| - 1].event;
      OutputSum(traces[..|traces| - 1]) + (if e.LlmCall? then e.output else 0)
  }

  /** The sum of the reported costs; none when no call reported one. */
  function CostSum(traces: seq<Trace>): Option<real> {
    if traces == [] then None
    else
      var e := traces[|traces| - 1].event;
      var before := CostSum(traces[..|traces| - 1]);
      if e.LlmCall? && e.cost.Some? then Some(before.GetOr(0.0) + e.cost.value) else before
  }

  /** The traces of successful calls. */
  function LlmTraces(traces: seq<Trace>): seq<Trace> {
    if traces == [] then []
    else
      var last := traces[|traces| - 1];
      LlmTraces(traces[..|traces| - 1]) + (if last.event.LlmCall? then [last] else [])
  }

  /** How many turns were begun. */
  function Turns(traces: seq<Trace>): nat {
    if traces == [] then 0
    else Turns(traces[..|traces| - 1]) + (if traces[|traces| - 1].event.Boundary? then 1 else 0)
  }

  datatype Budget = Budget(
    input: nat,
    output: nat,
    cost: Option<real>,
    context: nat)

  ghost predicate Accounted(b: Budget, traces: seq<Trace>) {
    && b.input == InputSum(traces)
    && b.output == OutputSum(traces)
    && b.cost == CostSum(traces)
  }

  /** What one more trace adds to the sums. */
  lemma {:induction false} SumsExtend(traces: seq<Trace>, t: Trace)
    ensures var e, longer := t.event, traces + [t];
            && InputSum(longer) == InputSum(traces) + (if e.LlmCall? then e.input else 0)
            && OutputSum(longer) == OutputSum(traces) + (if e.LlmCall? then e.output else 0)
            && CostSum(longer) == (if e.LlmCall? && e.cost.Some?
                                   then Some(CostSum(traces).GetOr(0.0) + e.cost.value)
                                   else CostSum(traces))
            && (Numbered(longer) <==> Numbered(traces) && t.sequence == |traces|)
  {
    var longer := traces + [t];
    assert longer[..|longer| - 1] == traces;
  }

  lemma {:induction false} ListsExtend(traces: seq<Trace>, t: Trace)
    ensures LlmTraces(traces + [t]) == if t.event.LlmCall? then LlmTraces(traces) + [t] else LlmTraces(traces)
    ensures Turns(traces + [t]) == Turns(traces) + (if t.event.Boundary? then 1 else 0)
  {
    assert (traces + [t])[..|traces|] == traces;
    assert LlmTraces(traces) + [] == LlmTraces(traces);
  }

  /** Only the entries of successful calls count. */
  lemma {:induction false} SumsOfLlm(traces: seq<Trace>)
    ensures InputSum(traces) == InputSum(LlmTraces(traces))
    ensures OutputSum(traces) == OutputSum(LlmTraces(traces))
    ensures CostSum(traces) == CostSum(LlmTraces(traces))
  {
    if traces != [] {
      var before, last := traces[..|traces| - 1], traces[|traces| - 1];
      SumsOfLlm(before);
      if last.event.LlmCall? {
        SumsExtend(LlmTraces(before), last);
      } else {
        assert LlmTraces(before) + [] == LlmTraces(before);
      }
    }
  }

  // ---------------------------------------------------------------- measuring the context

  /** `estimateTokens`: a quarter of the length, rounded up. */
  function EstimateTokens(chars: nat): (tokens: nat) {
    Ceil(chars as real * 0.25)
  }

  /** The length of all contents joined by newlines. */
  function JoinedChars(ms: seq<Message>): nat {
    if ms == [] then 0
    else ContentChars(ms[0].content) + (if |ms| == 1 then 0 else 1 + JoinedChars(ms[1..]))
  }

  lemma {:induction false} JoinedBelowChars(ms: seq<Message>)
    ensures JoinedChars(ms) <= Chars(ms)
  {
    if ms != [] {
      JoinedBelowChars(ms[1..]);
    }
  }

  /** The ratio measured from a call that reported its input tokens. */
  function MeasuredRatio(input: nat, requestChars: nat): real
    requires requestChars > 0
  {
    var r := input as real / requestChars as real;
    if r > DEFAULT_RATIO then r else DEFAULT_RATIO
  }

  lemma {:induction false} MeasuredRatioCovers(input: nat, requestChars: nat, ratio: real)
    requires requestChars > 0 && ratio == MeasuredRatio(input, requestChars)
    ensures ratio >= DEFAULT_RATIO
    ensures Ceil(Times(requestChars, ratio)) >= input
  {
    var r := input as real / requestChars as real;
    TimesIsProduct(requestChars, r);
    TimesGrows(requestChars, r, ratio);
  }

  lemma {:induction false} EstimateCovers(chars: nat, n: nat, ratio: real)
    requires chars <= n && ratio >= DEFAULT_RATIO
    ensures EstimateTokens(chars) <= Ceil(Times(n, ratio))
  {
    TimesIsProduct(chars, DEFAULT_RATIO);
    TimesMonotone(chars, n, DEFAULT_RATIO);
    TimesGrows(n, DEFAULT_RATIO, ratio);
  }

  /** Input tokens of a call: what the backend reported, or the estimate. */
  function InputTokens(reported: Option<nat>, ms: seq<Message>): nat {
    reported.GetOr(EstimateTokens(JoinedChars(ms)))
  }

  /** Output tokens of a call: what the backend reported, or the estimate. */
  function OutputTokens(reply: Reply): nat {
    reply.usage.output.GetOr(EstimateTokens(|reply.content|))
  }

  /** The trace a successful call leaves. */
  function Booking(a: Received): Trace {
    Trace(a.sequence,
          LlmCall(InputTokens(a.reply.usage.input, a.request), OutputTokens(a.reply), a.reply.usage.cost))
  }

  /** The traces a list of answers leaves. */
  function Bookings(answers: seq<Received>): seq<Trace> {
    if answers == [] then []
    else Bookings(answers[..|answers| - 1]) + [Booking(answers[|answers| - 1])]
  }

  /** The requests and answers in a list. */
  function Exchanges(answers: seq<Received>): seq<(seq<Message>, Reply)> {
    if answers == [] then []
    else
      var last := answers[|answers| - 1];
      Exchanges(answers[..|answers| - 1]) + [(last.request, last.reply)]
  }

  lemma {:induction false} AnswersGrow(answers: seq<Received>, a: Received)
    ensures Bookings(answers + [a]) == Bookings(answers) + [Booking(a)]
    ensures Exchanges(answers + [a]) == Exchanges(answers) + [(a.request, a.reply)]
    ensures Issued(answers + [a]) == Issued(answers) + PairsOf(a)
  {
    assert (answers + [a])[..|answers|] == answers;
  }

  function RatioAfter(reported: Option<nat>, requestChars: nat, ratio: real): real {
    if reported.Some? && requestChars > 0 then MeasuredRatio(reported.value, requestChars) else ratio
  }

  /** Reported or estimated, a call's input tokens never exceed the estimate of its request. */
  lemma {:induction false} CallCovered(
    ms: seq<Message>, requestChars: nat, reported: Option<nat>, ratio: real, measured: real)
    requires ms != [] && ratio >= DEFAULT_RATIO && requestChars >= Chars(ms)
    requires measured == RatioAfter(reported, requestChars, ratio)
    ensures measured >= DEFAULT_RATIO
    ensures InputTokens(reported, ms) <= Ceil(Times(requestChars, measured))
  {
    CharsAtLeastLength(ms);
    if reported.Some? {
      MeasuredRatioCovers(reported.value, requestChars, measured);
    } else {
      JoinedBelowChars(ms);
      EstimateCovers(JoinedChars(ms), requestChars, ratio);
    }
  }

  // ---------------------------------------------------------------- the refusal theorem

  /** What the safety net compares with its limit: the fresh estimate if compaction did something. */
  function Pressure(ms: seq<Message>, count: nat, rq: Request, context: nat): int {
    if count > 0 then Estimate(ms, rq) + rq.reserve else context
  }

  /** The request does not fit, and compaction has nothing left to remove. */
  ghost predicate Exhausted(ms: seq<Message>, rq: Request) {
    !Fits(ms, rq, FIT_AT) && NothingRemovable(ms)
  }

  lemma {:induction false} CompactedNonEmpty(ms: seq<Message>, rq: Request)
    requires Compactable(ms) && ValidRequest(rq) && ms != []
    ensures Compacted(ms, rq).0 != []
  {
    CompactedThins(ms, rq);
  }

  lemma {:induction false} EstimatePositive(ms: seq<Message>, rq: Request)
    requires ValidRequest(rq) && ms != []
    ensures Estimate(ms, rq) > 0
  {
    CharsAtLeastLength(ms);
    TimesMonotone(1, Chars(ms) + rq.schemaChars, rq.ratio);
    assert Times(0, rq.ratio) == 0.0;
  }

  /** The safety net's test. */
  predicate OverLimit(used: int, window: nat, threshold: real) {
    used as real >= Times(window, threshold)
  }

  /** The tokens reach the share of the window. */
  lemma {:induction false} OverLimitExactly(used: int, window: nat, threshold: real)
    ensures OverLimit(used, window, threshold) <==> used as real >= threshold * window as real
  {
    TimesIsProduct(window, threshold);
  }

  lemma {:induction false} OverLimitTooBig(used: int, room: int, window: nat, threshold: real)
    requires threshold > FIT_AT && OverLimit(used, window, threshold)
    requires room >= used && room > 0
    ensures room as real > FIT_AT * window as real
  {
    TimesIsProduct(window, FIT_AT);
    if window > 0 {
      TimesGrows(window - 1, FIT_AT, threshold);
    }
  }

  /** The arithmetic of a refusal, on the transcript as compaction left it. */
  lemma {:induction false} RefusedMeansTooBig(
    ms: seq<Message>, count: nat, rq: Request, context: nat, threshold: real)
    requires ValidRequest(rq) && ms != [] && threshold > FIT_AT
    requires count == 0 ==> context <= Estimate(ms, rq) + rq.reserve
    requires OverLimit(Pressure(ms, count, rq, context), rq.window, threshold)
    ensures !Fits(ms, rq, FIT_AT)
  {
    EstimatePositive(ms, rq);
    OverLimitTooBig(Pressure(ms, count, rq, context), Estimate(ms, rq) + rq.reserve,
                    rq.window, threshold);
  }

  /**
   * The safety net refuses only when compaction has nothing left to remove. `context` is
   * the last call's input plus output tokens; that the estimate covers its input part is
   * what the run maintains between calls.
   */
  lemma {:induction false} RefusalExhausted(
    ms: seq<Message>, rq: Request, context: nat, lastOutput: nat, threshold: real,
    after: seq<Message>, count: nat)
    requires Compactable(ms) && ValidRequest(rq) && ms != []
    requires context <= Estimate(ms, rq) + lastOutput && lastOutput <= rq.reserve
    requires threshold > FIT_AT
    requires (after, count) == Compacted(ms, rq)
    requires OverLimit(Pressure(after, count, rq, context), rq.window, threshold)
    ensures Exhausted(after, rq)
  {
    CompactedMeasure(ms, rq);
    CompactedNonEmpty(ms, rq);
    RefusedMeansTooBig(after, count, rq, context, threshold);
    CompactedExhausts(ms, rq);
  }

  /** The pressure a compaction reports: a fresh estimate if the transcript shrank. */
  function Renewed(before: nat, ms: seq<Message>, count: nat, rq: Request): Option<int> {
    if count > 0 && Chars(ms) < before then Some(EstimateChars(Chars(ms), rq) + rq.reserve) else None
  }

  /** A positive count always means the transcript shrank, so the fresh estimate is used. */
  lemma {:induction false} RenewedIsPressure(
    ms: seq<Message>, rq: Request, context: nat, after: seq<Message>, count: nat)
    requires Compactable(ms) && ValidRequest(rq) && (after, count) == Compacted(ms, rq)
    ensures Renewed(Chars(ms), after, count, rq).GetOr(context) == Pressure(after, count, rq, context)
  {
    CompactedMeasure(ms, rq);
  }
}
