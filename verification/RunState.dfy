/** What holds of a run between its steps, as functions of its state, and how messages extend it. */
module RunState {
  import opened Common
  import opened Conversation
  import opened Compaction
  import opened CompactionTheorems
  import opened RepeatGuard
  import opened OperatorInput
  import opened AgentLoop

  /** A user message the loop itself adds. */
  datatype Push = Operator(text: string) | Note(text: string)

  function AsMessage(p: Push): Message {
    var text := match p
      case Operator(t) => "[operator message] " + t
      case Note(t) => t;
    Message(User, Text(text), [], None, None)
  }

  function AsMessages(ps: seq<Push>): (ms: seq<Message>) {
    seq(|ps|, i requires 0 <= i < |ps| => AsMessage(ps[i]))
  }

  /** The operator texts among the pushed messages, in order. */
  function OperatorTexts(ps: seq<Push>): seq<string> {
    if ps == [] then []
    else
      var p := ps[|ps| - 1];
      OperatorTexts(ps[..|ps| - 1]) + (if p.Operator? then [p.text] else [])
  }

  lemma {:induction false} PushExtends(ps: seq<Push>, p: Push)
    ensures AsMessages(ps + [p]) == AsMessages(ps) + [AsMessage(p)]
    ensures p.Operator? ==> OperatorTexts(ps + [p]) == OperatorTexts(ps) + [p.text]
    ensures p.Note? ==> OperatorTexts(ps + [p]) == OperatorTexts(ps)
  {
    assert (ps + [p])[..|ps|] == ps;
    assert OperatorTexts(ps) + [] == OperatorTexts(ps);
  }

  lemma {:induction false} WellFormedAppend(ms: seq<Message>, m: Message)
    requires WellFormed(ms) && !m.role.Tool? && (m.role.Assistant? ==> m.calls == [])
    ensures WellFormed(ms + [m])
  {
    assert WellFormed([m]);
    WellFormedConcat(ms, [m]);
  }

  lemma {:induction false} WellFormedExchange(
    ms: seq<Message>, m: Message, results: seq<Message>)
    requires WellFormed(ms) && m.role.Assistant? && Answers(m.calls, results)
    ensures WellFormed(ms + [m] + results)
  {
    var head := [m] + results;
    assert head[1..] == results && head + [] == head;
    WellFormedCons(head, []);
    WellFormedConcat(ms, head);
    assert ms + [m] + results == ms + head;
  }

  lemma {:induction false} StandingAppend(ms: seq<Message>, m: Message)
    ensures StandingOf(ms + [m]) == StandingOf(ms) + (if Standing(m) then [m] else [])
  {
    StandingConcat(ms, [m]);
  }

  /** The caller's messages, behind the agent's system prompt unless they bring their own. */
  function StartMessages(input: seq<Message>, systemPrompt: string): seq<Message> {
    if systemPrompt != "" && (input == [] || !input[0].role.System?)
    then [Message(System, Text(systemPrompt), [], None, None)] + input
    else input
  }

  lemma {:induction false} StartWellFormed(input: seq<Message>, systemPrompt: string)
    requires WellFormed(input) && (input != [] || systemPrompt != "")
    ensures WellFormed(StartMessages(input, systemPrompt)) && StartMessages(input, systemPrompt) != []
  {
    var prompt := Message(System, Text(systemPrompt), [], None, None);
    assert WellFormed([prompt]);
    WellFormedConcat([prompt], input);
  }

  function ToolMessage(call: ToolCall, text: string): Message {
    Message(Tool, Text(text), [], Some(call.id), Some(call.name))
  }

  /** `after` is `before` and one result for the call, under its id and its name. */
  ghost predicate Responded(before: seq<Message>, after: seq<Message>, call: ToolCall) {
    && |after| == |before| + 1 && before <= after
    && after[|before|].content.Text?
    && after[|before|] == ToolMessage(call, after[|before|].content.text)
  }

  /** One more result behind those of the first `i` calls. */
  lemma {:induction false} AnswersExtend(
    calls: seq<ToolCall>, i: nat, base: seq<Message>, results: seq<Message>, after: seq<Message>)
    requires i < |calls| && Answers(calls[..i], results) && Responded(base + results, after, calls[i])
    ensures var m := after[|base| + i];
            after == base + (results + [m]) && Answers(calls[..i + 1], results + [m])
  {
    assert after == (base + results) + [after[|base| + i]];
  }

  function AssistantMessage(reply: Reply, calls: seq<ToolCall>): Message {
    Message(Assistant, Text(reply.content), calls, None, None)
  }

  datatype CallResult = Success(reply: Reply) | Refused | Broke

  datatype Status = Completed | Failed | Cancelled | BudgetExceeded

  datatype Outcome = Outcome(status: Status, capped: bool, content: Option<string>, refused: bool)

  datatype Next = Continue | Stop(outcome: Outcome)

  const CANCELLED := Outcome(Cancelled, false, None, false)

  /** The outcome of an answer that ends the run. */
  function Concluded(reply: Reply, answerTurn: bool): (outcome: Outcome)
    ensures outcome.status == Completed && !outcome.refused
    ensures outcome.capped <==>
              answerTurn && forall i :: 0 <= i < |reply.content| ==> IsSpace(reply.content[i])
    ensures outcome.content == if outcome.capped then None else Some(reply.content)
  {
    if answerTurn && Blank(reply.content) then Outcome(Completed, true, None, false)
    else Outcome(Completed, false, Some(reply.content), false)
  }

  /** `text.trim().length === 0`. */
  predicate Blank(text: string) {
    forall i :: 0 <= i < |text| ==> IsSpace(text[i])
  }

  // ---------------------------------------------------------------- the ledger

  datatype LedgerState = LedgerState(
    traces: seq<Trace>, counter: nat, budget: Budget, answers: seq<Received>, idBound: nat)

  const EMPTY_LEDGER := LedgerState([], 0, Budget(0, 0, None, 0), [], 0)

  /**
   * Traces numbered in order; a budget that adds up exactly the successful calls in them;
   * one such trace for each answer, about that answer; and numbers for the calls of the
   * answers that never overlap.
   */
  type Ledger = l: LedgerState |
    && Numbered(l.traces) && l.counter == |l.traces| && Accounted(l.budget, l.traces)
    && LlmTraces(l.traces) == Bookings(l.answers) && Spaced(l.answers, l.idBound)
    witness EMPTY_LEDGER

  /** Nothing was answered or spent between the two, and no turn begun. */
  ghost predicate Unspent(before: Ledger, after: Ledger) {
    && after == before.(traces := after.traces, counter := after.counter)
    && Turns(after.traces) == Turns(before.traces)
    && before.counter <= after.counter
  }

  /** The ledger with one more entry, not about a successful call. */
  function Logged(l: Ledger, e: Event): (r: Ledger)
    requires !e.LlmCall?
    ensures r == l.(traces := l.traces + [Trace(l.counter, e)], counter := l.counter + 1)
    ensures Turns(r.traces) == Turns(l.traces) + (if e.Boundary? then 1 else 0)
  {
    SumsExtend(l.traces, Trace(l.counter, e));
    ListsExtend(l.traces, Trace(l.counter, e));
    l.(traces := l.traces + [Trace(l.counter, e)], counter := l.counter + 1)
  }

  /** The ledger with an answer, booked in trace and budget. */
  function Booked(l: Ledger, request: seq<Message>, reply: Reply): (r: Ledger)
    requires l.idBound <= l.counter
    ensures r.answers == l.answers + [Received(request, reply, l.counter)]
    ensures Turns(r.traces) == Turns(l.traces)
    ensures r.counter == l.counter + 1 && r.idBound == r.counter + |reply.calls|
    ensures r.budget.context == InputTokens(reply.usage.input, request) + OutputTokens(reply)
  {
    var a := Received(request, reply, l.counter);
    var entry := Booking(a);
    SumsExtend(l.traces, entry);
    ListsExtend(l.traces, entry);
    AnswersGrow(l.answers, a);
    SpacedExtend(l.answers, l.idBound, a, l.counter + 1 + |reply.calls|);
    LedgerState(
      l.traces + [entry],
      l.counter + 1,
      Budget(l.budget.input + entry.event.input, l.budget.output + entry.event.output,
             if entry.event.cost.Some? then Some(l.budget.cost.GetOr(0.0) + entry.event.cost.value)
             else l.budget.cost,
             entry.event.input + entry.event.output),
      l.answers + [a],
      l.counter + 1 + |reply.calls|)
  }

  /** In every ledger, any two ids synthesized for the calls of its answers differ. */
  lemma {:induction false} LedgerIdsDiffer(l: Ledger, i: nat, j: nat)
    requires i < j < |Issued(l.answers)|
    requires Issued(l.answers)[i].0.id == "" && Issued(l.answers)[j].0.id == ""
    ensures Issued(l.answers)[i].1.id != Issued(l.answers)[j].1.id
  {
    SynthesizedIdsDiffer(l.answers, l.idBound, i, j);
  }

  // ---------------------------------------------------------------- the operator's mail

  datatype MailState = MailState(queue: seq<string>, delivered: seq<string>, pushes: seq<Push>, polls: nat)

  /** Every delivered operator text is among the pushed messages or still queued, once and in order. */
  type Mailbox = m: MailState | OperatorTexts(m.pushes) + m.queue == m.delivered
    witness MailState([], [], [], 0)

  /** One more poll; a rejected one brings nothing and loses nothing. */
  function AfterPoll(m: Mailbox, outcome: PollOutcome): (r: Mailbox)
    ensures r.pushes == m.pushes && r.polls == m.polls + 1
    ensures r.delivered == m.delivered + TextsOf(outcome)
  {
    var texts := TextsOf(outcome);
    AppendAssociates(OperatorTexts(m.pushes), m.queue, texts);
    MailState(m.queue + texts, m.delivered + texts, m.pushes, m.polls + 1)
  }

  lemma {:induction false} HeadMoves<T>(a: seq<T>, b: seq<T>)
    requires b != []
    ensures (a + [b[0]]) + b[1..] == a + b
  {
  }

  /** The oldest queued text becomes a message. */
  function Admitted(m: Mailbox): (r: Mailbox)
    requires m.queue != []
    ensures r.pushes == m.pushes + [Operator(m.queue[0])] && r.queue == m.queue[1..]
    ensures r.delivered == m.delivered && r.polls == m.polls
    ensures |OperatorTexts(r.pushes)| == |OperatorTexts(m.pushes)| + 1
  {
    var p := Operator(m.queue[0]);
    PushExtends(m.pushes, p);
    HeadMoves(OperatorTexts(m.pushes), m.queue);
    MailState(m.queue[1..], m.delivered, m.pushes + [p], m.polls)
  }

  /** The oldest `n` queued texts become messages, or all if there are fewer. */
  function AdmittedUpTo(m: Mailbox, n: nat): (r: Mailbox)
    ensures r.delivered == m.delivered && r.polls == m.polls
    ensures |OperatorTexts(r.pushes)| == |OperatorTexts(m.pushes)| + Min(n, |m.queue|)
    decreases n
  {
    if n == 0 || m.queue == [] then m else AdmittedUpTo(Admitted(m), n - 1)
  }

  /** The loop adds a message of its own. */
  function Noted(m: Mailbox, text: string): (r: Mailbox)
    ensures r == m.(pushes := m.pushes + [Note(text)])
    ensures OperatorTexts(r.pushes) == OperatorTexts(m.pushes)
  {
    PushExtends(m.pushes, Note(text));
    m.(pushes := m.pushes + [Note(text)])
  }

  /** How many texts have entered the transcript after `n` polls: up to four each time. */
  function Entered(poll: nat -> PollOutcome, n: nat): nat {
    if n == 0 then 0 else Min(Entered(poll, n - 1) + OPERATOR_PER_TURN, |DeliveredBy(poll, n)|)
  }

  /** The mail holds what that many polls brought, and as much of it has entered as could. */
  ghost predicate Kept(poll: nat -> PollOutcome, m: Mailbox) {
    m.delivered == DeliveredBy(poll, m.polls) && |OperatorTexts(m.pushes)| == Entered(poll, m.polls)
  }

  /** At most notes of the loop itself were added between the two. */
  ghost predicate Unpolled(before: Mailbox, after: Mailbox) {
    && after.polls == before.polls && after.delivered == before.delivered
    && OperatorTexts(after.pushes) == OperatorTexts(before.pushes)
  }

  /** What a turn does before its request: a poll, at most four operator texts, a note. */
  function TurnMail(m: Mailbox, poll: Option<PollOutcome>, note: Option<string>): Mailbox {
    var polled := if poll.None? then m else AdmittedUpTo(AfterPoll(m, poll.value), OPERATOR_PER_TURN);
    if note.None? then polled else Noted(polled, note.value)
  }

  lemma {:induction false} TurnMailBrings(m: Mailbox, poll: Option<PollOutcome>, note: Option<string>)
    ensures var r := TurnMail(m, poll, note);
            && r.polls == m.polls + (if poll.Some? then 1 else 0)
            && r.delivered == (if poll.Some? then m.delivered + TextsOf(poll.value) else m.delivered)
            && |OperatorTexts(r.pushes)| == (if poll.Some?
                 then Min(|OperatorTexts(m.pushes)| + OPERATOR_PER_TURN, |r.delivered|)
                 else |OperatorTexts(m.pushes)|)
  {
    hide OperatorTexts, AfterPoll, AdmittedUpTo, Noted, TextsOf;
  }

  lemma {:induction false} TurnKeeps(poll: nat -> PollOutcome, m: Mailbox, polls: bool, note: Option<string>)
    requires Kept(poll, m)
    ensures var r := TurnMail(m, if polls then Some(poll(m.polls)) else None, note);
            Kept(poll, r) && r.polls == m.polls + (if polls then 1 else 0)
  {
    hide TurnMail, OperatorTexts;
    var after := TurnMail(m, if polls then Some(poll(m.polls)) else None, note);
    TurnMailBrings(m, if polls then Some(poll(m.polls)) else None, note);
    if polls {
      assert after.delivered == DeliveredBy(poll, m.polls) + TextsOf(poll(m.polls)) == DeliveredBy(poll, after.polls);
      assert Entered(poll, after.polls)
          == Min(Entered(poll, m.polls) + OPERATOR_PER_TURN, |DeliveredBy(poll, after.polls)|);
    }
  }

  /** Besides the initial messages, exactly the pushed ones stand in the transcript. */
  ghost predicate Stands(initial: seq<Message>, ms: seq<Message>, pushes: seq<Push>) {
    StandingOf(ms) == StandingOf(initial) + AsMessages(pushes)
  }

  lemma {:induction false} StandsExtends(
    initial: seq<Message>, ms: seq<Message>, pushes: seq<Push>, p: Push)
    requires Stands(initial, ms, pushes)
    ensures Stands(initial, ms + [AsMessage(p)], pushes + [p])
  {
    StandingAppend(ms, AsMessage(p));
    PushExtends(pushes, p);
  }

  /**
   * From the rows of the annotation to the transcript: when the polls are those of the poller
   * over append-only rows, the texts of the rows it has passed are exactly the operator
   * messages that stand in the transcript, then the queued ones, each once and in order.
   */
  lemma {:induction false} OperatorEndToEnd(
    m: Mailbox, poll: nat -> PollOutcome, readings: seq<Reading>, all: seq<Row>,
    initial: seq<Message>, ms: seq<Message>)
    requires Kept(poll, m) && Stands(initial, ms, m.pushes)
    requires |readings| == m.polls && FromPoller(poll, readings) && AppendOnly(readings, all)
    ensures var cursor := Polls(0, readings).1;
            cursor <= |all| && OperatorTexts(m.pushes) + m.queue == Texts(all[..cursor])
    ensures StandingOf(ms) == StandingOf(initial) + AsMessages(m.pushes)
  {
    PollerDelivers(poll, readings);
    DeliversEachOnce(readings, all);
  }

  // ---------------------------------------------------------------- requests

  /** The requests sent so far, all of them well formed. */
  type Chats = chats: seq<Chat> | AllFormed(chats) witness []

  function Sent(chats: Chats, request: seq<Message>, outcome: ChatOutcome): (r: Chats)
    requires WellFormed(request)
    ensures r == chats + [Chat(request, outcome)]
  {
    ChatsExtend(k => outcome, chats, Chat(request, outcome));
    chats + [Chat(request, outcome)]
  }

  /** How the last request ended. */
  function LastOutcome(chats: Chats): ChatOutcome
    requires chats != []
  {
    chats[|chats| - 1].outcome
  }

  /** Requests after the first `n` were each sent only because the one before failed transiently. */
  ghost predicate Retried(chats: seq<Chat>, n: nat) {
    |chats| > n + 1 ==>
      Transient(chats[|chats| - 2].outcome) && Retried(chats[..|chats| - 1], n)
  }

  lemma {:induction false} RetriedExtend(chats: seq<Chat>, n: nat, c: Chat)
    requires Retried(chats, n) && n <= |chats|
    requires |chats| > n ==> Transient(chats[|chats| - 1].outcome)
    ensures Retried(chats + [c], n)
  {
    assert (chats + [c])[..|chats|] == chats;
  }

  /** Only a failed transport, a rate limit or a gateway's error is answered by another request. */
  lemma {:induction false} RetriedMeans(chats: seq<Chat>, n: nat)
    requires Retried(chats, n)
    ensures forall i :: n <= i < |chats| - 1 ==>
              chats[i].outcome.HttpError? && chats[i].outcome.status in [0, 429, 502, 503, 504]
  {
    if |chats| > n + 1 {
      RetriedMeans(chats[..|chats| - 1], n);
    }
  }

  // ---------------------------------------------------------------- what a turn starts from

  /** The transcript can be sent, and is no shorter than the last request. */
  ghost predicate Measured(ms: seq<Message>, requestChars: nat, schemaChars: nat) {
    ms != [] && WellFormed(ms) && requestChars <= Chars(ms) + schemaChars
  }

  lemma {:induction false} MeasuredExtends(
    ms: seq<Message>, m: Message, requestChars: nat, schemaChars: nat)
    requires Measured(ms, requestChars, schemaChars)
    requires !m.role.Tool? && (m.role.Assistant? ==> m.calls == [])
    ensures Measured(ms + [m], requestChars, schemaChars)
  {
    CharsConcat(ms, [m]);
    WellFormedAppend(ms, m);
  }

  /** An assistant message with calls, followed by all their results. */
  lemma {:induction false} MeasuredExchange(
    ms: seq<Message>, m: Message, after: seq<Message>, requestChars: nat, schemaChars: nat)
    requires Measured(ms, requestChars, schemaChars) && m.role.Assistant?
    requires ms + [m] <= after && Answers(m.calls, after[|ms| + 1..])
    ensures Measured(after, requestChars, schemaChars)
  {
    hide WellFormed, Chars, Answers;
    var results := after[|ms| + 1..];
    assert after == ms + [m] + results;
    WellFormedExchange(ms, m, results);
    assert ms + [m] + results == ms + ([m] + results);
    CharsConcat(ms, [m] + results);
  }

  /** The estimate of the last request covers the input tokens it took. */
  ghost predicate Covered(requestChars: nat, ratio: real, lastOutput: nat, context: nat) {
    ratio >= DEFAULT_RATIO && context <= Ceil(Times(requestChars, ratio)) + lastOutput
  }

  /** Refusing at this pressure is justified: nothing removable is left. */
  ghost predicate Justified(
    cfg: Config, renewed: Option<int>, context: nat, ms: seq<Message>, rq: Request)
  {
    cfg.window.Some? && OverLimit(renewed.GetOr(context), cfg.window.value, cfg.threshold) ==>
      Exhausted(ms, rq)
  }

  /** Whatever compaction does before a call, a refusal afterwards is justified. */
  lemma {:induction false} FitJustified(
    cfg: Config, ms: seq<Message>, rq: Request, requestChars: nat, lastOutput: nat, context: nat,
    after: seq<Message>, count: nat, renewed: Option<int>)
    requires ValidConfig(cfg) && ValidRequest(rq)
    requires cfg.window == Some(rq.window) && rq.schemaChars == cfg.schemaChars
    requires Measured(ms, requestChars, cfg.schemaChars)
    requires Covered(requestChars, rq.ratio, lastOutput, context) && lastOutput <= rq.reserve
    requires (after, count) == Compacted(ms, rq) && renewed == Renewed(Chars(ms), after, count, rq)
    ensures Justified(cfg, renewed, context, after, rq)
  {
    hide Compacted, NothingRemovable;
    RenewedIsPressure(ms, rq, context, after, count);
    TimesMonotone(requestChars, Chars(ms) + cfg.schemaChars, rq.ratio);
    if OverLimit(renewed.GetOr(context), rq.window, cfg.threshold) {
      RefusalExhausted(ms, rq, context, lastOutput, cfg.threshold, after, count);
    }
  }

  lemma {:induction false} FitKeeps(ms: seq<Message>, rq: Request, after: seq<Message>)
    requires ValidRequest(rq) && ms != [] && WellFormed(ms) && after == Compacted(ms, rq).0
    ensures after != [] && WellFormed(after) && StandingOf(after) == StandingOf(ms)
  {
    CompactedWellFormed(ms, rq);
    CompactedKeepsStanding(ms, rq);
    CompactedNonEmpty(ms, rq);
  }

  /** A limit is set and reached. */
  predicate Spent(cfg: Config, budget: Budget) {
    || (cfg.tokenLimit.Some? && budget.input + budget.output >= cfg.tokenLimit.value)
    || (cfg.costLimit.Some? && budget.cost.Some? && budget.cost.value >= cfg.costLimit.value)
  }

  /** What these answers are booked with reaches a limit. */
  ghost predicate SpentBy(cfg: Config, answers: seq<Received>) {
    var b := Bookings(answers);
    Spent(cfg, Budget(InputSum(b), OutputSum(b), CostSum(b), 0))
  }

  /** No limit was reached by any of these answers, the later ones on top of the earlier. */
  ghost predicate NeverSpent(cfg: Config, answers: seq<Received>) {
    answers != [] ==> !SpentBy(cfg, answers) && NeverSpent(cfg, answers[..|answers| - 1])
  }

  lemma {:induction false} SpentByAnswers(cfg: Config, l: Ledger)
    ensures Spent(cfg, l.budget) <==> SpentBy(cfg, l.answers)
  {
    SumsOfLlm(l.traces);
  }

  /** Every answer but the last left the run within its limits. */
  ghost predicate Affordable(cfg: Config, answers: seq<Received>) {
    answers != [] ==> NeverSpent(cfg, answers[..|answers| - 1])
  }

  /** One more answer; if the limits still hold, they never were reached. */
  lemma {:induction false} AffordableExtend(cfg: Config, before: seq<Received>, l: Ledger, a: Received)
    requires NeverSpent(cfg, before) && l.answers == before + [a]
    ensures Affordable(cfg, before) && Affordable(cfg, l.answers)
    ensures !Spent(cfg, l.budget) ==> NeverSpent(cfg, l.answers)
  {
    SpentByAnswers(cfg, l);
    assert l.answers[..|before|] == before;
  }

  // ---------------------------------------------------------------- the self-check

  /** Going on after an answer with that many calls: without any, only for the one self-check. */
  predicate GoesOn(calls: nat, selfCheck: bool, checkedBefore: bool, checked: bool, total: nat) {
    if calls == 0 then selfCheck && !checkedBefore && checked && total == 0 else checked == checkedBefore
  }

  /** All these answers have calls, except that the first may have been sent back for a self-check. */
  ghost predicate Working(answers: seq<Received>, checked: bool) {
    forall i :: 0 <= i < |answers| && answers[i].reply.calls == [] ==> i == 0 && checked
  }

  lemma {:induction false} WorkingExtend(
    answers: seq<Received>, a: Received, selfCheck: bool, checkedBefore: bool, checked: bool)
    requires Working(answers, selfCheck && checkedBefore)
    requires var n := |a.reply.calls|; GoesOn(n, selfCheck, checkedBefore, checked, |Issued(answers)| + n)
    ensures Working(answers + [a], selfCheck && checked)
  {
    if answers != [] && answers[|answers| - 1].reply.calls != [] {
      assert PairsOf(answers[|answers| - 1]) != [];
    }
  }

  /** The answers that were followed by another turn all had calls, or went to the self-check. */
  ghost predicate WorkedOn(answers: seq<Received>, selfCheck: bool) {
    answers != [] ==> Working(answers[..|answers| - 1], selfCheck)
  }

  lemma {:induction false} WorkedOnUntil(before: seq<Received>, a: Received, selfCheck: bool, checked: bool)
    requires Working(before, selfCheck && checked)
    ensures WorkedOn(before, selfCheck) && WorkedOn(before + [a], selfCheck)
  {
    assert (before + [a])[..|before|] == before;
  }

  // ---------------------------------------------------------------- tool calls

  /** A counted call that must not be run. */
  predicate Blocked(raw: RawCall, signature: string, tool: string, g: CallGuard) {
    || raw.malformed || raw.keyed
    || Count(g.identical, signature) > g.limits.maxIdentical
    || !WithinLimit(Count(g.perTool, tool), g.limits.maxPerTool)
  }

  predicate Succeeds(o: ToolOutcome) {
    o.Result? && !o.isError
  }

  /** The guard once a call is counted. */
  function Weighed(g: CallGuard, raw: RawCall, tool: string): (r: CallGuard)
    ensures r.limits == g.limits && |r.history| == |g.history| + 1
  {
    Counted(g, tool + ":" + raw.json, tool)
  }

  /** Nothing blocks the call, and it has a provider. */
  predicate Runs(g: CallGuard, raw: RawCall, tool: string, provided: bool) {
    provided && !Blocked(raw, tool + ":" + raw.json, tool, Weighed(g, raw, tool))
  }

  /**
   * A call runs exactly if it is well formed, has a provider, and this attempt is within both
   * limits: of the same call since a different one succeeded, and of its tool.
   */
  lemma {:induction false} RunsExactly(g: CallGuard, raw: RawCall, tool: string, provided: bool)
    ensures Runs(g, raw, tool, provided) <==>
              && provided && !raw.malformed && !raw.keyed
              && |Counting(g.history, tool + ":" + raw.json)| < g.limits.maxIdentical
              && (g.limits.maxPerTool.Some? ==> |Calling(g.history, tool)| < g.limits.maxPerTool.value)
  {
    var a := Attempt(tool + ":" + raw.json, tool, false, false);
    assert (g.history + [a])[..|g.history|] == g.history;
    SinceCounts(g.history, tool + ":" + raw.json);
    OfToolCounts(g.history, tool);
  }

  lemma {:induction false} RunsMayRun(g: CallGuard, raw: RawCall, tool: string, provided: bool)
    requires Runs(g, raw, tool, provided)
    ensures MayRun(Weighed(g, raw, tool))
  {
  }

  /** The guard after a call: counted, and if nothing stood in its way also run. */
  ghost function AfterCall(
    g: CallGuard, raw: RawCall, tool: string, provided: bool, outcome: ToolOutcome): (r: CallGuard)
    ensures r.limits == g.limits
  {
    if Runs(g, raw, tool, provided) then
      RunsMayRun(g, raw, tool, provided);
      Settled(Weighed(g, raw, tool), Succeeds(outcome))
    else Weighed(g, raw, tool)
  }

  /** The text of the provider for a call that is the k-th the guard sees, if it runs. */
  function Provided(world: World, g: CallGuard, raw: RawCall, name: string): Option<string> {
    var k := |g.history|;
    var tool := world.resolve(k, name).GetOr(name);
    if Runs(g, raw, tool, world.provided(k, tool)) then Some(world.tool(k).text) else None
  }

  /** A call answers with its provider's text exactly if it runs, under the name it resolves to. */
  lemma {:induction false} ProvidedExactly(
    world: World, g: CallGuard, raw: RawCall, name: string, tool: string, text: string)
    requires tool == match world.resolve(|g.history|, name) case None => name case Some(resolved) => resolved
    ensures Provided(world, g, raw, name) == Some(text) <==>
              && text == world.tool(|g.history|).text
              && world.provided(|g.history|, tool) && !raw.malformed && !raw.keyed
              && |Counting(g.history, tool + ":" + raw.json)| < g.limits.maxIdentical
              && (g.limits.maxPerTool.Some? ==> |Calling(g.history, tool)| < g.limits.maxPerTool.value)
  {
    RunsExactly(g, raw, tool, world.provided(|g.history|, tool));
  }

  /** What the guard does with a call that is the k-th it sees, in a world. */
  ghost function Handle(world: World, g: CallGuard, raw: RawCall, name: string): (r: CallGuard) {
    var k := |g.history|;
    var tool := world.resolve(k, name).GetOr(name);
    AfterCall(g, raw, tool, world.provided(k, tool), world.tool(k))
  }

  /** The guard after a list of calls: each counted, and run exactly if nothing blocked it. */
  ghost function GuardAfter(world: World, limits: Limits, handled: seq<(RawCall, ToolCall)>): CallGuard {
    if handled == [] then GuardState(limits, map[], map[], [])
    else
      var (raw, call) := handled[|handled| - 1];
      Handle(world, GuardAfter(world, limits, handled[..|handled| - 1]), raw, call.name)
  }

  lemma {:induction false} GuardGrows(
    world: World, limits: Limits, handled: seq<(RawCall, ToolCall)>, raw: RawCall, call: ToolCall)
    ensures GuardAfter(world, limits, handled + [(raw, call)])
         == Handle(world, GuardAfter(world, limits, handled), raw, call.name)
  {
    assert (handled + [(raw, call)])[..|handled|] == handled;
  }

  /** The result of each call that ran carries its provider's text. */
  ghost predicate Reported(
    world: World, limits: Limits, before: seq<(RawCall, ToolCall)>, todo: seq<(RawCall, ToolCall)>,
    results: seq<Message>)
  {
    results != [] ==>
      var n := |results| - 1;
      && n < |todo| && Reported(world, limits, before, todo, results[..n])
      && var text := Provided(world, GuardAfter(world, limits, before + todo[..n]), todo[n].0, todo[n].1.name);
         text.Some? ==> results[n].content == Text(text.value)
  }

  lemma {:induction false} ReportedExtend(
    world: World, limits: Limits, before: seq<(RawCall, ToolCall)>, todo: seq<(RawCall, ToolCall)>,
    results: seq<Message>, m: Message)
    requires |results| < |todo| && Reported(world, limits, before, todo, results)
    requires var n := |results|;
             var text := Provided(world, GuardAfter(world, limits, before + todo[..n]), todo[n].0, todo[n].1.name);
             text.Some? ==> m.content == Text(text.value)
    ensures Reported(world, limits, before, todo, results + [m])
  {
    hide Provided, GuardAfter;
    assert (results + [m])[..|results|] == results;
  }

  /** The calls handled are a beginning of those to do, behind the ones handled before. */
  ghost predicate Through(
    before: seq<(RawCall, ToolCall)>, after: seq<(RawCall, ToolCall)>, todo: seq<(RawCall, ToolCall)>)
  {
    before <= after <= before + todo
  }

  lemma {:induction false} ThroughPart(
    before: seq<(RawCall, ToolCall)>, todo: seq<(RawCall, ToolCall)>, i: nat)
    requires i < |todo|
    ensures Through(before, before + todo[..i], todo)
    ensures Through(before, before + todo[..i] + [todo[i]], todo)
    ensures before + todo[..i] + [todo[i]] == before + todo[..i + 1]
  {
  }

  /** All calls of all answers but the last were handled, in order, and a beginning of the last one's. */
  ghost predicate InOrder(handled: seq<(RawCall, ToolCall)>, answers: seq<Received>) {
    if answers == [] then handled == []
    else Through(Issued(answers[..|answers| - 1]), handled, PairsOf(answers[|answers| - 1]))
  }

  lemma {:induction false} AllInOrder(answers: seq<Received>)
    ensures InOrder(Issued(answers), answers)
  {
  }

  lemma {:induction false} LastInOrder(
    before: seq<Received>, a: Received, handled: seq<(RawCall, ToolCall)>)
    requires Through(Issued(before), handled, PairsOf(a))
    ensures InOrder(handled, before + [a])
  {
    assert (before + [a])[..|before|] == before;
  }

  /** An answer whose calls were handled as far as it came, and all of them if the run goes on. */
  lemma {:induction false} AnswerHandled(
    before: seq<Received>, a: Received, handled: seq<(RawCall, ToolCall)>, goesOn: bool,
    selfCheck: bool, checkedBefore: bool, checked: bool, total: nat)
    requires Working(before, selfCheck && checkedBefore) && Through(Issued(before), handled, PairsOf(a))
    requires goesOn ==>
               && handled == Issued(before) + PairsOf(a) && total == |Issued(before)| + |a.reply.calls|
               && GoesOn(|a.reply.calls|, selfCheck, checkedBefore, checked, total)
    ensures var after := before + [a];
            && Exchanges(after) == Exchanges(before) + [(a.request, a.reply)]
            && InOrder(handled, after) && WorkedOn(after, selfCheck)
            && (goesOn ==>
                  handled == Issued(after) && total == |handled| && Working(after, selfCheck && checked))
  {
    hide Working, WorkedOn, GoesOn, InOrder, Through;
    AnswersGrow(before, a);
    WorkedOnUntil(before, a, selfCheck, checkedBefore);
    LastInOrder(before, a, handled);
    if goesOn {
      WorkingExtend(before, a, selfCheck, checkedBefore, checked);
    }
  }
}
