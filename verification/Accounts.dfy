/** What a run's budget holds, told from the requests and their answers alone. */
module Accounts {
  import opened Common
  import opened Conversation
  import opened Compaction
  import opened CompactionLimits
  import opened AgentLoop
  import opened RunState

  // ---------------------------------------------------------------- one answer

  /** The contents of all messages, joined by newlines. */
  function Joined(ms: seq<Message>): string {
    if ms == [] then ""
    else ContentText(ms[0].content) + (if |ms| == 1 then "" else "\n" + Joined(ms[1..]))
  }

  lemma {:induction false} JoinedMeasured(ms: seq<Message>)
    ensures JoinedChars(ms) == |Joined(ms)|
  {
    if ms != [] {
      ContentMeasured(ms[0].content);
      JoinedMeasured(ms[1..]);
    }
  }

  /** The estimate for a text nobody counted: a quarter of its length, rounded up. */
  ghost predicate QuarterOf(tokens: nat, text: string) {
    |text| <= 4 * tokens < |text| + 4
  }

  lemma {:induction false} EstimateIsQuarter(text: string)
    ensures QuarterOf(EstimateTokens(|text|), text)
  {
  }

  /** The entry of the i-th answer: what the backend reported, and for what it did not, the estimate. */
  lemma {:induction false} BookedAsReported(l: Ledger, i: nat)
    requires i < |l.answers|
    ensures |LlmTraces(l.traces)| == |l.answers| && LlmTraces(l.traces)[i].event.LlmCall?
    ensures var e, usage := LlmTraces(l.traces)[i].event, l.answers[i].reply.usage;
            && (if usage.input.Some? then e.input == usage.input.value
                else QuarterOf(e.input, Joined(l.answers[i].request)))
            && (if usage.output.Some? then e.output == usage.output.value
                else QuarterOf(e.output, l.answers[i].reply.content))
            && e.cost == usage.cost
  {
    BookingsAt(l.answers, i);
    JoinedMeasured(l.answers[i].request);
    EstimateIsQuarter(Joined(l.answers[i].request));
    EstimateIsQuarter(l.answers[i].reply.content);
  }

  lemma {:induction false} BookingsAt(answers: seq<Received>, i: nat)
    requires i < |answers|
    ensures |Bookings(answers)| == |answers| && Bookings(answers)[i] == Booking(answers[i])
  {
    if i < |answers| - 1 {
      BookingsAt(answers[..|answers| - 1], i);
    } else if i > 0 {
      BookingsAt(answers[..i], i - 1);
    }
  }

  // ---------------------------------------------------------------- all answers

  /** The backend reported the tokens of every request it answered. */
  ghost predicate AllReported(chats: seq<Chat>) {
    forall i :: 0 <= i < |chats| && chats[i].outcome.Answered? ==>
      chats[i].outcome.reply.usage.input.Some? && chats[i].outcome.reply.usage.output.Some?
  }

  /** The input tokens the backend reported for the requests it answered. */
  function ReportedInput(chats: seq<Chat>): nat {
    if chats == [] then 0
    else
      var last := chats[|chats| - 1].outcome;
      ReportedInput(chats[..|chats| - 1]) + (if last.Answered? then last.reply.usage.input.GetOr(0) else 0)
  }

  function ReportedOutput(chats: seq<Chat>): nat {
    if chats == [] then 0
    else
      var last := chats[|chats| - 1].outcome;
      ReportedOutput(chats[..|chats| - 1]) + (if last.Answered? then last.reply.usage.output.GetOr(0) else 0)
  }

  /** The reported costs; none if no answer came with one. */
  function ReportedCost(chats: seq<Chat>): Option<real> {
    if chats == [] then None
    else
      var before, last := ReportedCost(chats[..|chats| - 1]), chats[|chats| - 1].outcome;
      if last.Answered? && last.reply.usage.cost.Some?
      then Some(before.GetOr(0.0) + last.reply.usage.cost.value) else before
  }

  ghost predicate SomeAnswered(chats: seq<Chat>) {
    exists i :: 0 <= i < |chats| && chats[i].outcome.Answered?
  }

  /** The last answer in both lists, or an attempt that brought none. */
  lemma {:induction false} LastAnswer(chats: seq<Chat>, answers: seq<Received>)
    requires chats != [] && AnsweredOf(chats) == Exchanges(answers)
    ensures var n, last := |chats| - 1, chats[|chats| - 1];
            if last.outcome.Answered? then
              && answers != [] && answers[|answers| - 1].reply == last.outcome.reply
              && AnsweredOf(chats[..n]) == Exchanges(answers[..|answers| - 1])
            else AnsweredOf(chats[..n]) == Exchanges(answers)
  {
    var n, last := |chats| - 1, chats[|chats| - 1];
    if last.outcome.Answered? {
      var x := AnsweredOf(chats[..n]);
      assert AnsweredOf(chats) == x + [(last.request, last.outcome.reply)];
      var a := answers[|answers| - 1];
      var y := Exchanges(answers[..|answers| - 1]);
      assert Exchanges(answers) == y + [(a.request, a.reply)];
      assert (x + [(last.request, last.outcome.reply)])[..|x|] == x;
      assert (y + [(a.request, a.reply)])[..|y|] == y;
    } else {
      assert AnsweredOf(chats[..n]) + [] == AnsweredOf(chats[..n]);
    }
  }

  lemma {:induction false} SumsAreReported(chats: seq<Chat>, answers: seq<Received>)
    requires AnsweredOf(chats) == Exchanges(answers)
    ensures AllReported(chats) ==> InputSum(Bookings(answers)) == ReportedInput(chats)
    ensures AllReported(chats) ==> OutputSum(Bookings(answers)) == ReportedOutput(chats)
    ensures CostSum(Bookings(answers)) == ReportedCost(chats)
    ensures SomeAnswered(chats) <==> answers != []
  {
    if chats == [] {
      assert answers == [];
    } else {
      var n, last := |chats| - 1, chats[|chats| - 1];
      LastAnswer(chats, answers);
      if last.outcome.Answered? {
        var m := |answers| - 1;
        SumsAreReported(chats[..n], answers[..m]);
        SumsExtend(Bookings(answers[..m]), Booking(answers[m]));
      } else {
        SumsAreReported(chats[..n], answers);
        assert SomeAnswered(chats) ==> SomeAnswered(chats[..n]);
      }
    }
  }

  /** A ledger that records exactly these requests holds exactly what was reported for them. */
  lemma {:induction false} BudgetIsReported(l: Ledger, chats: seq<Chat>)
    requires AnsweredOf(chats) == Exchanges(l.answers)
    ensures AllReported(chats) ==> l.budget.input == ReportedInput(chats)
    ensures AllReported(chats) ==> l.budget.output == ReportedOutput(chats)
    ensures l.budget.cost == ReportedCost(chats)
    ensures SomeAnswered(chats) <==> l.answers != []
  {
    hide ReportedInput, ReportedOutput, ReportedCost, InputSum, OutputSum, CostSum;
    SumsOfLlm(l.traces);
    SumsAreReported(chats, l.answers);
  }

  /** What was reported reaches a limit that is set. */
  ghost predicate LimitReached(cfg: Config, chats: seq<Chat>) {
    || (cfg.tokenLimit.Some? && ReportedInput(chats) + ReportedOutput(chats) >= cfg.tokenLimit.value)
    || (cfg.costLimit.Some? && ReportedCost(chats).Some? && ReportedCost(chats).value >= cfg.costLimit.value)
  }

  lemma {:induction false} ReachedIsSpent(cfg: Config, chats: seq<Chat>, answers: seq<Received>)
    requires AnsweredOf(chats) == Exchanges(answers) && AllReported(chats)
    ensures LimitReached(cfg, chats) <==> SpentBy(cfg, answers)
  {
    hide ReportedInput, ReportedOutput, ReportedCost, InputSum, OutputSum, CostSum, Bookings;
    SumsAreReported(chats, answers);
  }

  /** The answers to the first `k` requests. */
  lemma {:induction false} AnswersUntil(chats: seq<Chat>, answers: seq<Received>, k: nat) returns (m: nat)
    requires AnsweredOf(chats) == Exchanges(answers) && k <= |chats|
    ensures m <= |answers| && AnsweredOf(chats[..k]) == Exchanges(answers[..m])
    ensures SomeAnswered(chats[k..]) ==> m < |answers|
  {
    if k == |chats| {
      m := |answers|;
      assert chats[..k] == chats && answers[..m] == answers;
    } else {
      var n, last := |chats| - 1, chats[|chats| - 1];
      LastAnswer(chats, answers);
      var fewer := if last.outcome.Answered? then answers[..|answers| - 1] else answers;
      m := AnswersUntil(chats[..n], fewer, k);
      assert chats[..n][..k] == chats[..k] && fewer[..m] == answers[..m];
      if SomeAnswered(chats[k..]) && !last.outcome.Answered? {
        var i :| 0 <= i < |chats[k..]| && chats[k..][i].outcome.Answered?;
        assert chats[..n][k..][i].outcome.Answered?;
      }
    }
  }

  lemma {:induction false} NeverSpentBefore(cfg: Config, answers: seq<Received>, m: nat)
    requires NeverSpent(cfg, answers) && 0 < m <= |answers|
    ensures !SpentBy(cfg, answers[..m])
  {
    if m == |answers| {
      assert answers[..m] == answers;
    } else {
      NeverSpentBefore(cfg, answers[..|answers| - 1], m);
      assert answers[..|answers| - 1][..m] == answers[..m];
    }
  }

  /** Wherever another answer follows, what was reported until then has reached no limit. */
  lemma {:induction false} WentOnBelowLimits(cfg: Config, chats: seq<Chat>, answers: seq<Received>, k: nat)
    requires AnsweredOf(chats) == Exchanges(answers) && AllReported(chats) && Affordable(cfg, answers)
    requires k <= |chats| && SomeAnswered(chats[..k]) && SomeAnswered(chats[k..])
    ensures !LimitReached(cfg, chats[..k])
  {
    hide LimitReached, SpentBy, NeverSpent;
    var m := AnswersUntil(chats, answers, k);
    assert AllReported(chats[..k]);
    SumsAreReported(chats[..k], answers[..m]);
    var most := answers[..|answers| - 1];
    NeverSpentBefore(cfg, most, m);
    assert most[..m] == answers[..m];
    ReachedIsSpent(cfg, chats[..k], answers[..m]);
  }

  /** The measured ratio is the reported input per character of the request, and at least a quarter. */
  lemma {:induction false} RatioIsMeasured(reported: Option<nat>, requestChars: nat, ratio: real)
    ensures var r := RatioAfter(reported, requestChars, ratio);
            if reported.Some? && requestChars > 0 then
              && r >= 0.25 && r * requestChars as real >= reported.value as real
              && (r == 0.25 || r * requestChars as real == reported.value as real)
            else r == ratio
  {
    if reported.Some? && requestChars > 0 {
      var x := reported.value as real / requestChars as real;
      assert x * requestChars as real == reported.value as real;
      if x <= 0.25 {
        ScaleMonotone(x, 0.25, requestChars as real);
      }
    }
  }
}
