/** One run of the tool-use loop, with compaction, retries, guards, budget and operator input. */
module Executor {
  import opened Common
  import opened Conversation
  import opened Compaction
  import opened Transcripts
  import opened RepeatGuard
  import opened OperatorInput
  import opened AgentLoop
  import opened RunState
  import opened Accounts

  class AgentRun {
    const cfg: Config
    const world: World
    const transcript: Transcript
    ghost const initial: seq<Message>

    var checks: nat
    var words: nat
    var ledger: Ledger
    var ratio: real
    var requestChars: nat
    var lastInput: Option<nat>
    var lastOutput: nat
    var mail: Mailbox
    var guard: CallGuard
    var selfChecked: bool
    var toolCalls: nat
    var chats: Chats
    ghost var handled: seq<(RawCall, ToolCall)>

    /** The request the next compaction works for. */
    function Now(): Request
      reads this`ratio, this`lastInput, this`lastOutput
    {
      Request(cfg.window.GetOr(0), ratio, lastInput, cfg.schemaChars, Max(lastOutput, cfg.maxTokens))
    }

    /** The limits of the guard against repeated calls. */
    function CallLimits(): Limits {
      Limits(cfg.maxIdentical, cfg.maxPerTool)
    }

    // -------------------------------------------------------------- what holds

    /** The last look at the abort signal found it set. */
    ghost predicate AbortSeen()
      reads this`checks
    {
      checks > 0 && world.aborted(checks - 1)
    }

    /** What holds of the transcript in front of every turn. */
    ghost predicate Sendable()
      reads this`requestChars, transcript
    {
      Measured(transcript.messages, requestChars, cfg.schemaChars)
    }

    /** The system and user messages are the initial ones, then the pushed ones, in order. */
    ghost predicate Standing()
      reads this`mail, transcript
    {
      Stands(initial, transcript.messages, mail.pushes)
    }

    /** The guard is what the handled calls make of it, and nothing else. */
    ghost predicate Explained()
      reads this`guard, this`handled
    {
      guard == GuardAfter(world, CallLimits(), handled)
    }

    /** The requests ended as the world says, and each answered one is in the ledger. */
    ghost predicate Recorded()
      reads this`chats, this`ledger
    {
      FromWorld(world.chat, chats) && AnsweredOf(chats) == Exchanges(ledger.answers)
    }

    /** One poll for each turn begun, if there is a source, and mail kept accordingly. */
    ghost predicate Polled()
      reads this`mail, this`ledger
    {
      Kept(world.poll, mail) && mail.polls == if cfg.polls then Turns(ledger.traces) else 0
    }

    /** The state between turns, on top of what the types of the fields say. */
    ghost predicate Ready()
      reads this`ratio, this`requestChars, this`lastOutput, this`selfChecked, this`toolCalls
      reads this`ledger, this`mail, this`guard, this`handled, this`chats, transcript
    {
      && Sendable() && Standing() && Explained() && Recorded() && Polled()
      && Covered(requestChars, ratio, lastOutput, ledger.budget.context)
      && NeverSpent(cfg, ledger.answers)
      && ledger.idBound <= ledger.counter
      && handled == Issued(ledger.answers) && toolCalls == |handled|
      && |ledger.answers| == Turns(ledger.traces)
      && Working(ledger.answers, cfg.selfCheck.Some? && selfChecked)
    }

    /**
     * What holds of a run that has ended: its ledger has an entry for exactly the answered
     * requests, its guard comes from exactly the calls of those answers (of the last one as
     * far as it came), its mail from one poll a turn; every turn but the last was answered, with
     * calls or, once, with a text that was sent back for a self-check.
     */
    ghost predicate Consistent()
      reads this`ledger, this`mail, this`guard, this`handled, this`chats, transcript
    {
      && Standing() && Explained() && Recorded() && Polled()
      && Affordable(cfg, ledger.answers)
      && InOrder(handled, ledger.answers) && WorkedOn(ledger.answers, cfg.selfCheck.Some?)
      && |ledger.answers| <= Turns(ledger.traces) <= |ledger.answers| + 1
    }

    lemma {:induction false} ReadyIsConsistent()
      requires Ready()
      ensures Consistent() && (ledger.answers != [] ==> !Spent(cfg, ledger.budget))
    {
      hide Spaced, GuardAfter, Issued, InOrder, SpentBy, Spent;
      SpentByAnswers(cfg, ledger);
      AllInOrder(ledger.answers);
    }

    lemma {:induction false} StartsReady()
      requires transcript.messages == initial != [] && WellFormed(initial)
      requires ledger == EMPTY_LEDGER && mail == MailState([], [], [], 0) && chats == [] && handled == []
      requires guard == GuardState(CallLimits(), map[], map[], [])
      requires ratio >= DEFAULT_RATIO && requestChars == 0 && lastOutput == 0 && toolCalls == 0
      ensures Ready()
    {
      hide Numbered, LlmTraces, Bookings, Refines, Guarded, AllFormed, WellFormed, StandingOf;
      assert StandingOf(initial) + [] == StandingOf(initial);
    }

    constructor (cfg: Config, world: World, input: seq<Message>, systemPrompt: string)
      requires WellFormed(input) && (input != [] || systemPrompt != "")
      ensures this.cfg == cfg && this.world == world && fresh(transcript)
      ensures transcript.messages == initial == StartMessages(input, systemPrompt)
      ensures Ready() && chats == [] && ledger == EMPTY_LEDGER && checks == 0
    {
      var start := StartMessages(input, systemPrompt);
      this.cfg, this.world := cfg, world;
      transcript := new Transcript(start);
      initial := start;
      checks, words, ledger := 0, 0, EMPTY_LEDGER;
      ratio, requestChars, lastInput, lastOutput := DEFAULT_RATIO, 0, None, 0;
      mail := MailState([], [], [], 0);
      guard := GuardState(Limits(cfg.maxIdentical, cfg.maxPerTool), map[], map[], []);
      selfChecked, toolCalls := false, 0;
      chats, handled := [], [];
      new;
      StartWellFormed(input, systemPrompt);
      StartsReady();
    }

    /** Looks at the abort signal. */
    method Aborted() returns (b: bool)
      modifies this`checks
      ensures checks == old(checks) + 1 && b == world.aborted(old(checks)) == AbortSeen()
    {
      b := world.aborted(checks);
      checks := checks + 1;
    }

    /** A text whose wording is not modelled. */
    method Say() returns (text: string)
      modifies this`words
      ensures text == world.wording(old(words))
    {
      text := world.wording(words);
      words := words + 1;
    }

    method Emit(e: Event)
      requires !e.LlmCall?
      modifies this`ledger
      ensures ledger == Logged(old(ledger), e)
    {
      ledger := Logged(ledger, e);
    }

    // -------------------------------------------------------------- user messages

    /** Appends a message of the loop itself, like the answer-turn note. */
    method PushNote(text: string)
      requires Sendable() && Standing()
      modifies transcript, this`mail
      ensures Sendable() && Standing()
      ensures mail == Noted(old(mail), text)
      ensures transcript.messages == old(transcript.messages) + [AsMessage(Note(text))]
    {
      MeasuredExtends(transcript.messages, AsMessage(Note(text)), requestChars, cfg.schemaChars);
      StandsExtends(initial, transcript.messages, mail.pushes, Note(text));
      transcript.Push(AsMessage(Note(text)));
      mail := Noted(mail, text);
    }

    /** Moves the oldest queued operator text into the transcript. */
    method AdmitOne()
      requires Sendable() && Standing() && mail.queue != []
      modifies transcript, this`mail
      ensures Sendable() && Standing()
      ensures mail == Admitted(old(mail))
      ensures transcript.messages == old(transcript.messages) + [AsMessage(Operator(old(mail).queue[0]))]
    {
      var p := Operator(mail.queue[0]);
      MeasuredExtends(transcript.messages, AsMessage(p), requestChars, cfg.schemaChars);
      StandsExtends(initial, transcript.messages, mail.pushes, p);
      transcript.Push(AsMessage(p));
      mail := Admitted(mail);
    }

    /** Asks the operator source; a rejected poll brings nothing and loses nothing. */
    method Drain()
      requires Standing()
      modifies this`mail
      ensures Standing() && mail == AfterPoll(old(mail), world.poll(old(mail).polls))
    {
      mail := AfterPoll(mail, world.poll(mail.polls));
    }

    /** Drains the operator source; at most four messages enter the transcript this turn. */
    method PollOperators()
      requires Sendable() && Standing()
      modifies transcript, this`mail
      ensures Sendable() && Standing()
      ensures mail == AdmittedUpTo(AfterPoll(old(mail), world.poll(old(mail).polls)), OPERATOR_PER_TURN)
    {
      hide Sendable, Standing, Refines, Guarded, OperatorTexts, Bookings, StandingOf;
      Drain();
      ghost var goal := AdmittedUpTo(mail, OPERATOR_PER_TURN);
      var more := OPERATOR_PER_TURN;
      while more > 0 && mail.queue != []
        invariant 0 <= more <= OPERATOR_PER_TURN
        invariant Sendable() && Standing()
        invariant goal == AdmittedUpTo(mail, more)
      {
        AdmitOne();
        more := more - 1;
      }
    }

    // -------------------------------------------------------------- fitting and asking

    /** Compacts, and estimates afresh if that shrank the transcript. */
    method Compress(rq: Request) returns (renewed: Option<int>, count: nat)
      requires ValidRequest(rq) && Compactable(transcript.messages)
      modifies transcript
      ensures (transcript.messages, count) == Compacted(old(transcript.messages), rq)
      ensures renewed == Renewed(old(Chars(transcript.messages)), transcript.messages, count, rq)
    {
      var before := Chars(transcript.messages);
      count := transcript.Compact(rq);
      renewed := Renewed(before, transcript.messages, count, rq);
    }

    /** Compacts before a call; returns the new pressure if that changed anything. */
    method FitToWindow() returns (renewed: Option<int>)
      requires ValidConfig(cfg) && Sendable() && Standing()
      requires Covered(requestChars, ratio, lastOutput, ledger.budget.context)
      modifies transcript
      ensures WellFormed(transcript.messages) && transcript.messages != [] && Standing()
      ensures Justified(cfg, renewed, ledger.budget.context, transcript.messages, Now())
      ensures transcript.messages == if cfg.window.None? then old(transcript.messages)
                                     else Compacted(old(transcript.messages), Now()).0
    {
      renewed := None;
      if cfg.window.Some? {
        var rq := Now();
        ghost var ms := transcript.messages;
        var count;
        renewed, count := Compress(rq);
        FitKeeps(ms, rq, transcript.messages);
        FitJustified(cfg, ms, rq, requestChars, lastOutput, ledger.budget.context,
                     transcript.messages, count, renewed);
      }
    }

    /** The safety net in front of every attempt. */
    predicate Refusing(renewed: Option<int>)
      reads this`ledger
    {
      && cfg.window.Some?
      && OverLimit(renewed.GetOr(ledger.budget.context), cfg.window.value, cfg.threshold)
    }

    /** One `chat` call. */
    method Send() returns (outcome: ChatOutcome)
      requires WellFormed(transcript.messages) && FromWorld(world.chat, chats)
      modifies this`chats
      ensures FromWorld(world.chat, chats)
      ensures chats == old(chats) + [Chat(transcript.messages, outcome)]
    {
      outcome := world.chat(|chats|);
      ChatsExtend(world.chat, chats, Chat(transcript.messages, outcome));
      chats := Sent(chats, transcript.messages, outcome);
    }

    /** One attempt, and whether there is to be another one. */
    method Attempt(attempt: nat) returns (outcome: ChatOutcome, again: bool)
      requires WellFormed(transcript.messages) && FromWorld(world.chat, chats)
      requires attempt <= cfg.maxRetries
      modifies this`checks, this`ledger, this`chats
      ensures FromWorld(world.chat, chats)
      ensures chats == old(chats) + [Chat(transcript.messages, outcome)]
      ensures Unspent(old(ledger), ledger)
      ensures again ==> Transient(outcome) && attempt < cfg.maxRetries
      ensures outcome.HttpError? && (outcome.status in [0, 429] || 502 <= outcome.status <= 504) ==>
                again || attempt == cfg.maxRetries || AbortSeen()
      ensures again ==> outcome.HttpError? && (outcome.status in [0, 429] || 502 <= outcome.status <= 504)
    {
      outcome := Send();
      again := Transient(outcome) && attempt < cfg.maxRetries;
      if again {
        Emit(LlmRetried(attempt));
        var aborted := Aborted();
        again := !aborted;
      }
    }

    /** One call with its retries; refuses when the context is over the safety threshold. */
    method ChatWithRetry(renewed: Option<int>) returns (result: CallResult)
      requires WellFormed(transcript.messages) && FromWorld(world.chat, chats)
      modifies this`checks, this`ledger, this`chats
      ensures FromWorld(world.chat, chats)
      ensures |old(chats)| <= |chats| <= |old(chats)| + cfg.maxRetries + 1
      ensures Unspent(old(ledger), ledger)
      ensures result.Refused? <==>
                && cfg.window.Some?
                && OverLimit(if renewed.Some? then renewed.value else old(ledger.budget.context),
                             cfg.window.value, cfg.threshold)
      ensures result.Refused? ==> chats == old(chats)
      ensures !result.Refused? ==>
                && |chats| > |old(chats)| && Retried(chats, |old(chats)|)
                && chats[|chats| - 1].request == transcript.messages
      ensures result.Success? ==>
                && LastOutcome(chats) == Answered(result.reply)
                && AnsweredOf(chats) == AnsweredOf(old(chats)) + [(transcript.messages, result.reply)]
      ensures !result.Success? ==> AnsweredOf(chats) == AnsweredOf(old(chats))
      ensures result.Broke? ==>
                && !LastOutcome(chats).Answered?
                && (Transient(LastOutcome(chats)) ==>
                      |chats| == |old(chats)| + cfg.maxRetries + 1 || AbortSeen())
    {
      hide Numbered, Bookings, AllFormed, OutputSum, CostSum, Turns, AnsweredOf, FromWorld, WellFormed,
           Answers;
      var attempt := 0;
      while true
        invariant 0 <= attempt <= cfg.maxRetries && FromWorld(world.chat, chats)
        invariant |chats| == |old(chats)| + attempt && Retried(chats, |old(chats)|)
        invariant AnsweredOf(chats) == AnsweredOf(old(chats))
        invariant Unspent(old(ledger), ledger)
        invariant attempt == 0 ==> chats == old(chats)
        invariant attempt > 0 ==> !Refusing(renewed) && Transient(LastOutcome(chats))
        decreases cfg.maxRetries - attempt
      {
        if Refusing(renewed) {
          return Refused;
        }
        ghost var before := chats;
        var outcome, again := Attempt(attempt);
        RetriedExtend(before, |old(chats)|, Chat(transcript.messages, outcome));
        ChatsExtend(world.chat, before, Chat(transcript.messages, outcome));
        if outcome.Answered? {
          return Success(outcome.reply);
        }
        if !again {
          return Broke;
        }
        attempt := attempt + 1;
      }
    }

    /** Accounts for a successful call and measures the ratio it was made at. */
    method Account(reply: Reply)
      requires ratio >= DEFAULT_RATIO && transcript.messages != []
      requires requestChars == Chars(transcript.messages) + cfg.schemaChars
      requires ledger.idBound <= ledger.counter
      modifies this`ledger, this`ratio, this`lastInput, this`lastOutput
      ensures Covered(requestChars, ratio, lastOutput, ledger.budget.context)
      ensures lastOutput == OutputTokens(reply)
      ensures ratio == RatioAfter(reply.usage.input, requestChars, old(ratio))
      ensures lastInput == if reply.usage.input.Some? && requestChars > 0 then reply.usage.input
                           else old(lastInput)
      ensures ledger == Booked(old(ledger), transcript.messages, reply)
    {
      var ms := transcript.messages;
      var measured := RatioAfter(reply.usage.input, requestChars, ratio);
      CallCovered(ms, requestChars, reply.usage.input, ratio, measured);
      ledger := Booked(ledger, ms, reply);
      lastOutput := OutputTokens(reply);
      ratio := measured;
      if reply.usage.input.Some? && requestChars > 0 {
        lastInput := reply.usage.input;
      }
    }

    // -------------------------------------------------------------- tool dispatch

    /** Appends the result of a tool call to the transcript. */
    method Respond(call: ToolCall, text: string)
      requires Standing()
      modifies transcript
      ensures Standing() && Responded(old(transcript.messages), transcript.messages, call)
      ensures transcript.messages == old(transcript.messages) + [ToolMessage(call, text)]
    {
      StandingAppend(transcript.messages, ToolMessage(call, text));
      transcript.Push(ToolMessage(call, text));
    }

    /** Runs the call counted last at its provider. */
    method Execute(call: ToolCall) returns (cancelled: bool)
      requires MayRun(guard) && Standing()
      modifies transcript, this`checks, this`ledger, this`guard
      ensures Standing() && Unspent(old(ledger), ledger)
      ensures guard == Settled(old(guard), Succeeds(world.tool(|old(guard).history| - 1)))
      ensures cancelled ==> world.tool(|old(guard).history| - 1).Threw? && AbortSeen()
      ensures !cancelled ==>
                && ledger.counter > old(ledger).counter
                && Responded(old(transcript.messages), transcript.messages, call)
                && transcript.messages[|old(transcript.messages)|]
                   == ToolMessage(call, world.tool(|old(guard).history| - 1).text)
    {
      hide LlmTraces, Bookings, Spaced, Refines, Guarded, AllFormed, InputSum, OutputSum, CostSum, Turns,
           WellFormed, Chars, StandingOf;
      cancelled := false;
      Emit(ToolStarted(call.id));
      match world.tool(|guard.history| - 1) {
        case Result(text, isError) =>
          guard := Settled(guard, !isError);
          Emit(ToolDone(call.id, isError));
          Respond(call, text);
        case Threw(text) =>
          guard := Settled(guard, false);
          cancelled := Aborted();
          if !cancelled {
            Emit(ToolDone(call.id, true));
            Respond(call, text);
          }
      }
    }

    /** Answers a call without running it. */
    method Refuse(call: ToolCall)
      requires Standing()
      modifies transcript, this`words, this`ledger
      ensures Standing() && ledger == Logged(old(ledger), ToolDone(call.id, true))
      ensures Responded(old(transcript.messages), transcript.messages, call)
    {
      Emit(ToolDone(call.id, true));
      var text := Say();
      Respond(call, text);
    }

    /** Counts a call, and decides whether it runs. */
    method Weigh(raw: RawCall, call: ToolCall) returns (run: bool)
      modifies this`guard
      ensures var k := |old(guard).history|;
              var tool := world.resolve(k, call.name).GetOr(call.name);
              && guard == Weighed(old(guard), raw, tool)
              && run == Runs(old(guard), raw, tool, world.provided(k, tool))
      ensures run ==> MayRun(guard)
    {
      hide Refines, Guarded;
      var k := |guard.history|;
      var tool := world.resolve(k, call.name).GetOr(call.name);
      ghost var before := guard;
      guard := Counted(guard, tool + ":" + raw.json, tool);
      run := !Blocked(raw, tool + ":" + raw.json, tool, guard) && world.provided(k, tool);
      if run {
        RunsMayRun(before, raw, tool, world.provided(k, tool));
      }
    }

    /** Counts a call, and runs it only if nothing blocks it and it has a provider. */
    method Consider(raw: RawCall, call: ToolCall) returns (cancelled: bool)
      requires Standing()
      modifies transcript, this`checks, this`words, this`ledger, this`guard
      ensures Standing() && Unspent(old(ledger), ledger)
      ensures guard == Handle(world, old(guard), raw, call.name)
      ensures cancelled ==> AbortSeen()
      ensures !cancelled ==>
                && ledger.counter > old(ledger).counter
                && Responded(old(transcript.messages), transcript.messages, call)
                && var text := Provided(world, old(guard), raw, call.name);
                   text.Some? ==> transcript.messages[|old(transcript.messages)|].content == Text(text.value)
    {
      hide Refines, Guarded, Runs, Weighed, StandingOf, Bookings, LlmTraces;
      cancelled := false;
      var run := Weigh(raw, call);
      if run {
        cancelled := Execute(call);
      } else {
        Refuse(call);
      }
    }

    /**
     * Handles one tool call: guards first, then its provider. Unless the run was aborted
     * before, the guard changes by exactly this call, which runs only if nothing blocks it.
     */
    method HandleCall(raw: RawCall, call: ToolCall) returns (cancelled: bool)
      requires Standing() && Explained()
      modifies transcript, this`checks, this`words, this`ledger, this`guard, this`handled
      ensures Standing() && Explained() && Unspent(old(ledger), ledger)
      ensures handled == if world.aborted(old(checks)) then old(handled)
                         else old(handled) + [(raw, call)]
      ensures world.aborted(old(checks)) ==> cancelled
      ensures cancelled ==> AbortSeen()
      ensures !cancelled ==>
                && ledger.counter > old(ledger).counter
                && Responded(old(transcript.messages), transcript.messages, call)
                && var text := Provided(world, old(guard), raw, call.name);
                   text.Some? ==> transcript.messages[|old(transcript.messages)|].content == Text(text.value)
    {
      hide Refines, Guarded, GuardAfter, Handle, StandingOf, Bookings, LlmTraces;
      cancelled := Aborted();
      if !cancelled {
        GuardGrows(world, CallLimits(), handled, raw, call);
        handled := handled + [(raw, call)];
        cancelled := Consider(raw, call);
      }
    }

    /** Handles the calls of one answer in order, each with one result. */
    method DispatchAll(raws: seq<RawCall>, calls: seq<ToolCall>) returns (cancelled: bool)
      requires |raws| == |calls| && Standing() && Explained()
      modifies transcript, this`checks, this`words, this`ledger, this`guard, this`handled
      ensures Standing() && Explained() && Unspent(old(ledger), ledger)
      ensures Through(old(handled), handled, Paired(raws, calls))
      ensures cancelled ==> AbortSeen()
      ensures !cancelled ==>
                && handled == old(handled) + Paired(raws, calls)
                && ledger.counter >= old(ledger).counter + |calls|
                && old(transcript.messages) <= transcript.messages
                && Answers(calls, transcript.messages[|old(transcript.messages)|..])
                && Reported(world, CallLimits(), old(handled), Paired(raws, calls),
                            transcript.messages[|old(transcript.messages)|..])
    {
      hide Numbered, Accounted, LlmTraces, Bookings, Spaced, Refines, Guarded, OutputSum, Turns,
           GuardAfter, Provided, StandingOf;
      ghost var base, todo, results := transcript.messages, Paired(raws, calls), [];
      cancelled := false;
      var i := 0;
      while i < |calls|
        invariant 0 <= i <= |calls| && Standing() && Explained()
        invariant handled == old(handled) + todo[..i]
        invariant Unspent(old(ledger), ledger) && ledger.counter >= old(ledger).counter + i
        invariant transcript.messages == base + results && Answers(calls[..i], results)
        invariant Reported(world, CallLimits(), old(handled), todo, results)
      {
        ThroughPart(old(handled), todo, i);
        cancelled := HandleCall(raws[i], calls[i]);
        if cancelled {
          return;
        }
        ghost var m := transcript.messages[|base| + i];
        AnswersExtend(calls, i, base, results, transcript.messages);
        ReportedExtend(world, CallLimits(), old(handled), todo, results, m);
        results := results + [m];
        i := i + 1;
      }
      assert calls[..|calls|] == calls && todo[..|calls|] == todo;
      assert transcript.messages[|base|..] == results;
    }

    /** Appends the assistant's calls and their results. */
    method Dispatch(reply: Reply, calls: seq<ToolCall>) returns (cancelled: bool)
      requires Sendable() && Standing() && Explained() && |calls| == |reply.calls|
      modifies transcript, this`checks, this`words, this`ledger, this`guard, this`handled
      ensures Standing() && Explained() && Unspent(old(ledger), ledger)
      ensures Through(old(handled), handled, Paired(reply.calls, calls))
      ensures cancelled ==> AbortSeen()
      ensures !cancelled ==>
                && handled == old(handled) + Paired(reply.calls, calls)
                && Sendable() && ledger.counter >= old(ledger).counter + |calls|
                && old(transcript.messages) + [AssistantMessage(reply, calls)] <= transcript.messages
                && Reported(world, CallLimits(), old(handled), Paired(reply.calls, calls),
                            transcript.messages[|old(transcript.messages)| + 1..])
    {
      hide GuardAfter, StandingOf;
      ghost var ms := transcript.messages;
      var m := AssistantMessage(reply, calls);
      StandingAppend(ms, m);
      transcript.Push(m);
      cancelled := DispatchAll(reply.calls, calls);
      if !cancelled {
        MeasuredExchange(ms, m, transcript.messages, requestChars, cfg.schemaChars);
      }
    }

    // -------------------------------------------------------------- turns

    /** Adds what the operator and the loop itself have to say this turn. */
    method AddMessages(iteration: nat)
      requires Sendable() && Standing()
      modifies transcript, this`words, this`mail
      ensures Sendable() && Standing()
      ensures mail == MailOf(iteration, old(mail), old(words))
    {
      hide OperatorTexts, Chars, WellFormed, StandingOf;
      if cfg.polls {
        PollOperators();
      }
      if iteration == cfg.maxIterations {
        var note := Say();
        PushNote(note);
      }
    }

    /** The mail after the beginning of a turn. */
    ghost function MailOf(iteration: nat, m: Mailbox, words: nat): Mailbox {
      TurnMail(m, if cfg.polls then Some(world.poll(m.polls)) else None,
               if iteration == cfg.maxIterations then Some(world.wording(words)) else None)
    }

    /** The turn's messages, its boundary trace, and compaction. */
    method Prepare(iteration: nat) returns (renewed: Option<int>)
      requires ValidConfig(cfg) && Sendable() && Standing()
      requires Covered(requestChars, ratio, lastOutput, ledger.budget.context)
      modifies transcript, this`words, this`mail, this`ledger, this`requestChars
      ensures Sendable() && Standing()
      ensures mail == MailOf(iteration, old(mail), old(words))
      ensures Justified(cfg, renewed, ledger.budget.context, transcript.messages, Now())
      ensures requestChars == Chars(transcript.messages) + cfg.schemaChars
      ensures ledger == Logged(Logged(old(ledger), Boundary(iteration)), LlmStarted(iteration))
    {
      hide Numbered, LlmTraces, Bookings, Spaced, InputSum, OutputSum, CostSum, Turns, WellFormed, Chars,
           StandingOf;
      AddMessages(iteration);
      Emit(Boundary(iteration));
      renewed := FitToWindow();
      requestChars := Chars(transcript.messages) + cfg.schemaChars;
      Emit(LlmStarted(iteration));
    }

    /** Once per run an answer without any tool call is sent back for a self-check. */
    method SelfCheck(reply: Reply)
      requires cfg.selfCheck.Some? && Sendable() && Standing()
      modifies transcript, this`selfChecked, this`mail
      ensures Sendable() && Standing() && selfChecked
      ensures mail == Noted(old(mail), cfg.selfCheck.value)
      ensures transcript.messages
           == old(transcript.messages) + [AssistantMessage(reply, [])] + [AsMessage(Note(cfg.selfCheck.value))]
    {
      hide OperatorTexts, StandingOf, Chars;
      selfChecked := true;
      var m := AssistantMessage(reply, []);
      MeasuredExtends(transcript.messages, m, requestChars, cfg.schemaChars);
      StandingAppend(transcript.messages, m);
      transcript.Push(m);
      PushNote(cfg.selfCheck.value);
    }

    /** An answer without calls ends the run, except for the one self-check. */
    method Conclude(reply: Reply, answerTurn: bool) returns (next: Next)
      requires Sendable() && Standing()
      modifies transcript, this`selfChecked, this`mail
      ensures Sendable() && Standing()
      ensures next.Continue? <==> !answerTurn && cfg.selfCheck.Some? && !old(selfChecked) && toolCalls == 0
      ensures next.Continue? ==> selfChecked && mail == Noted(old(mail), cfg.selfCheck.value)
      ensures next.Stop? ==> next.outcome == Concluded(reply, answerTurn) && mail == old(mail)
    {
      if answerTurn && Blank(reply.content) {
        return Stop(Outcome(Completed, true, None, false));
      }
      if !answerTurn && cfg.selfCheck.Some? && !selfChecked && toolCalls == 0 {
        SelfCheck(reply);
        return Continue;
      }
      next := Stop(Outcome(Completed, false, Some(reply.content), false));
    }

    /** What the loop does with an answer: stop, check itself, or run the calls. */
    method Act(reply: Reply, calls: seq<ToolCall>, answerTurn: bool) returns (next: Next)
      requires Sendable() && Standing() && Explained() && |calls| == |reply.calls|
      modifies transcript, this`checks, this`words, this`ledger, this`mail, this`guard, this`handled
      modifies this`selfChecked, this`toolCalls
      ensures Standing() && Explained() && Unspent(old(ledger), ledger)
      ensures Unpolled(old(mail), mail)
      ensures Through(old(handled), handled, Paired(reply.calls, calls))
      ensures next.Continue? ==>
                && handled == old(handled) + Paired(reply.calls, calls)
                && Sendable() && ledger.counter >= old(ledger).counter + |calls|
                && toolCalls == old(toolCalls) + |calls|
                && GoesOn(|calls|, cfg.selfCheck.Some?, old(selfChecked), selfChecked, toolCalls)
      ensures next.Stop? ==>
                next.outcome == Concluded(reply, answerTurn) || (next.outcome == CANCELLED && AbortSeen())
      ensures answerTurn ==> next.Stop?
    {
      hide OperatorTexts, GuardAfter, StandingOf;
      if answerTurn || calls == [] {
        next := Conclude(reply, answerTurn);
        assert calls == [] ==> Paired(reply.calls, calls) == [] && handled + [] == handled;
      } else {
        toolCalls := toolCalls + |calls|;
        var cancelled := Dispatch(reply, calls);
        next := if cancelled then Stop(CANCELLED) else Continue;
      }
    }

    /** Gives every call of an answer an id, and books the answer. */
    method Receive(reply: Reply) returns (calls: seq<ToolCall>)
      requires ratio >= DEFAULT_RATIO && transcript.messages != []
      requires requestChars == Chars(transcript.messages) + cfg.schemaChars
      requires ledger.idBound <= ledger.counter && NeverSpent(cfg, ledger.answers)
      modifies this`ledger, this`ratio, this`lastInput, this`lastOutput
      ensures Covered(requestChars, ratio, lastOutput, ledger.budget.context)
      ensures calls == Synthesize(reply.calls, old(ledger).counter)
      ensures ledger == Booked(old(ledger), transcript.messages, reply)
      ensures Affordable(cfg, ledger.answers)
      ensures !Spent(cfg, ledger.budget) ==> NeverSpent(cfg, ledger.answers)
    {
      hide Spent, NeverSpent, Affordable;
      ghost var before := ledger.answers;
      calls := Synthesize(reply.calls, ledger.counter);
      Account(reply);
      AffordableExtend(cfg, before, ledger, ledger.answers[|before|]);
    }

    /** The two checks between an answer and its calls: the budget, then the abort signal. */
    method Halted() returns (halt: Option<Status>)
      modifies this`checks
      ensures halt == Some(BudgetExceeded) <==> Spent(cfg, ledger.budget)
      ensures halt in {None, Some(BudgetExceeded), Some(Cancelled)}
      ensures halt == Some(Cancelled) ==> AbortSeen()
      ensures halt.None? ==> !world.aborted(old(checks))
    {
      if Spent(cfg, ledger.budget) {
        return Some(BudgetExceeded);
      }
      var aborted := Aborted();
      halt := if aborted then Some(Cancelled) else None;
    }

    /** Why a run ends on an answer. */
    ghost predicate Ended(outcome: Outcome, reply: Reply, answerTurn: bool)
      reads this`checks, this`ledger
    {
      || outcome == Concluded(reply, answerTurn)
      || (outcome == CANCELLED && AbortSeen())
      || (outcome == Outcome(BudgetExceeded, false, None, false) && Spent(cfg, ledger.budget))
    }

    /** Unless the run is to end here, acts on the answer. */
    method Proceed(reply: Reply, calls: seq<ToolCall>, answerTurn: bool) returns (next: Next)
      requires Sendable() && Standing() && Explained() && |calls| == |reply.calls|
      modifies transcript, this`checks, this`words, this`ledger, this`mail, this`guard, this`handled
      modifies this`selfChecked, this`toolCalls
      ensures Standing() && Explained() && Unspent(old(ledger), ledger)
      ensures Unpolled(old(mail), mail)
      ensures Through(old(handled), handled, Paired(reply.calls, calls))
      ensures next.Continue? ==>
                && handled == old(handled) + Paired(reply.calls, calls)
                && Sendable() && ledger.counter >= old(ledger).counter + |calls|
                && toolCalls == old(toolCalls) + |calls|
                && GoesOn(|calls|, cfg.selfCheck.Some?, old(selfChecked), selfChecked, toolCalls)
      ensures next.Stop? ==> Ended(next.outcome, reply, answerTurn)
      ensures Spent(cfg, ledger.budget) <==> next == Stop(Outcome(BudgetExceeded, false, None, false))
      ensures answerTurn ==> next.Stop?
    {
      hide OperatorTexts, GuardAfter, StandingOf;
      var halt := Halted();
      if halt.Some? {
        next := Stop(Outcome(halt.value, false, None, false));
      } else {
        next := Act(reply, calls, answerTurn);
      }
    }

    /** A call that failed for good ends the run; an abort in the meantime wins. */
    method Fail(refused: bool) returns (next: Next)
      modifies this`checks, this`ledger
      ensures Unspent(old(ledger), ledger)
      ensures next == Stop(if AbortSeen() then CANCELLED else Outcome(Failed, false, None, refused))
      ensures AbortSeen() == world.aborted(old(checks))
    {
      var aborted := Aborted();
      if aborted {
        return Stop(CANCELLED);
      }
      Emit(LlmFailed);
      next := Stop(Outcome(Failed, false, None, refused));
    }

    /** Books the answer, checks the budget and the abort signal, and acts on the answer. */
    method Digest(reply: Reply, answerTurn: bool) returns (next: Next)
      requires Sendable() && Standing() && Explained() && ratio >= DEFAULT_RATIO
      requires requestChars == Chars(transcript.messages) + cfg.schemaChars
      requires ledger.idBound <= ledger.counter && NeverSpent(cfg, ledger.answers)
      requires handled == Issued(ledger.answers) && FromWorld(world.chat, chats) && toolCalls == |handled|
      requires Working(ledger.answers, cfg.selfCheck.Some? && selfChecked)
      requires AnsweredOf(chats) == Exchanges(ledger.answers) + [(transcript.messages, reply)]
      modifies transcript, this`checks, this`words, this`ledger, this`mail, this`guard, this`handled
      modifies this`selfChecked, this`toolCalls, this`ratio, this`lastInput, this`lastOutput
      ensures Standing() && Explained() && Recorded() && InOrder(handled, ledger.answers)
      ensures WorkedOn(ledger.answers, cfg.selfCheck.Some?)
      ensures Unpolled(old(mail), mail)
      ensures ledger.answers
           == old(ledger).answers + [Received(old(transcript.messages), reply, old(ledger).counter)]
      ensures Turns(ledger.traces) == Turns(old(ledger).traces)
      ensures Affordable(cfg, ledger.answers)
      ensures next.Continue? ==>
                && Sendable() && NeverSpent(cfg, ledger.answers)
                && Covered(requestChars, ratio, lastOutput, ledger.budget.context)
                && ledger.idBound <= ledger.counter && handled == Issued(ledger.answers)
                && toolCalls == |handled| && Working(ledger.answers, cfg.selfCheck.Some? && selfChecked)
      ensures next.Stop? ==> Ended(next.outcome, reply, answerTurn)
      ensures Spent(cfg, ledger.budget) <==> next == Stop(Outcome(BudgetExceeded, false, None, false))
      ensures answerTurn ==> next.Stop?
    {
      hide Accounted, LlmTraces, Bookings, Spaced, OperatorTexts, Turns, GuardAfter, Issued, Exchanges,
           AnsweredOf, FromWorld, WellFormed, Chars, StandingOf, InOrder, Through, Working, WorkedOn, GoesOn,
           NeverSpent, Affordable, Spent;
      ghost var before, checkedBefore := ledger.answers, selfChecked;
      var calls := Receive(reply);
      ghost var a := ledger.answers[|before|];
      next := Proceed(reply, calls, answerTurn);
      AnswerHandled(before, a, handled, next.Continue?, cfg.selfCheck.Some?, checkedBefore, selfChecked, toolCalls);
    }

    /** What the outcome of a run says is so. */
    ghost predicate Honest(outcome: Outcome)
      reads this, transcript
    {
      && (outcome.refused ==> outcome.status == Failed)
      && (outcome.status == BudgetExceeded <==> ledger.answers != [] && Spent(cfg, ledger.budget))
      && match outcome.status
         case Cancelled => AbortSeen()
         case BudgetExceeded => true
         case Completed =>
           && chats != [] && LastOutcome(chats).Answered?
           && outcome == Concluded(LastOutcome(chats).reply, Turns(ledger.traces) == cfg.maxIterations + 1)
         case Failed =>
           if outcome.refused then cfg.window.Some? && Exhausted(transcript.messages, Now())
           else chats != [] && !LastOutcome(chats).Answered?
    }

    /**
     * When the backend reported what it used: the budget is the sum of these reports, the run
     * ends as over budget exactly if they reach a limit, and it never asked again once they had.
     */
    ghost predicate Budgeted(outcome: Outcome)
      reads this`chats, this`ledger
    {
      && ledger.budget.cost == ReportedCost(chats)
      && (AllReported(chats) ==>
            && ledger.budget.input == ReportedInput(chats) && ledger.budget.output == ReportedOutput(chats)
            && (outcome.status == BudgetExceeded <==> SomeAnswered(chats) && LimitReached(cfg, chats))
            && forall k :: 0 <= k <= |chats| && SomeAnswered(chats[..k]) && SomeAnswered(chats[k..]) ==>
                 !LimitReached(cfg, chats[..k]))
    }

    lemma {:induction false} EndsBudgeted(outcome: Outcome)
      requires Consistent() && Honest(outcome)
      ensures Budgeted(outcome)
    {
      hide Accounted, ReportedInput, ReportedOutput, ReportedCost, SomeAnswered, AllReported, LimitReached, Spent,
           AnsweredOf, Exchanges, InOrder, WorkedOn, Affordable;
      BudgetIsReported(ledger, chats);
      SpentByAnswers(cfg, ledger);
      if AllReported(chats) {
        ReachedIsSpent(cfg, chats, ledger.answers);
        forall k | 0 <= k <= |chats| && SomeAnswered(chats[..k]) && SomeAnswered(chats[k..])
          ensures !LimitReached(cfg, chats[..k])
        {
          WentOnBelowLimits(cfg, chats, ledger.answers, k);
        }
      }
    }

    /** Prepares the messages of a turn and sends them. */
    method Exchange(iteration: nat) returns (result: CallResult)
      requires ValidConfig(cfg) && Sendable() && Standing() && FromWorld(world.chat, chats)
      requires Covered(requestChars, ratio, lastOutput, ledger.budget.context)
      requires Kept(world.poll, mail)
      modifies transcript, this`checks, this`words, this`mail, this`ledger, this`requestChars, this`chats
      ensures Sendable() && Standing() && FromWorld(world.chat, chats)
      ensures mail == MailOf(iteration, old(mail), old(words)) && Kept(world.poll, mail)
      ensures mail.polls == old(mail).polls + (if cfg.polls then 1 else 0)
      ensures ledger == old(ledger).(traces := ledger.traces, counter := ledger.counter)
      ensures Turns(ledger.traces) == Turns(old(ledger).traces) + 1
      ensures ledger.counter >= old(ledger).counter
      ensures requestChars == Chars(transcript.messages) + cfg.schemaChars
      ensures |old(chats)| <= |chats| <= |old(chats)| + cfg.maxRetries + 1
      ensures result.Refused? ==> cfg.window.Some? && Exhausted(transcript.messages, Now())
      ensures !result.Refused? ==> |chats| > |old(chats)|
      ensures result.Success? ==>
                && LastOutcome(chats) == Answered(result.reply)
                && AnsweredOf(chats) == AnsweredOf(old(chats)) + [(transcript.messages, result.reply)]
      ensures !result.Success? ==> AnsweredOf(chats) == AnsweredOf(old(chats))
      ensures result.Broke? ==> !LastOutcome(chats).Answered?
    {
      hide LlmTraces, Bookings, Spaced, OperatorTexts, AllFormed, CostSum, Turns, AnsweredOf, FromWorld,
           DeliveredBy, Entered, WellFormed, Chars, StandingOf, Retried;
      TurnKeeps(world.poll, mail, cfg.polls,
                if iteration == cfg.maxIterations then Some(world.wording(words)) else None);
      var renewed := Prepare(iteration);
      result := ChatWithRetry(renewed);
    }

    /** Prepares the messages of a turn, sends them, and deals with the answer. */
    method Converse(iteration: nat) returns (next: Next)
      requires ValidConfig(cfg) && Ready() && iteration == Turns(ledger.traces)
      modifies this, transcript
      ensures Consistent()
      ensures next.Continue? ==> Ready() && Turns(ledger.traces) == iteration + 1
      ensures next.Stop? ==> Honest(next.outcome)
      ensures |chats| <= |old(chats)| + cfg.maxRetries + 1
      ensures iteration == cfg.maxIterations ==> next.Stop?
    {
      hide Accounted, LlmTraces, Bookings, Spaced, Refines, Guarded, OperatorTexts, Turns, Handle, Issued,
           Exchanges, AnsweredOf, FromWorld, DeliveredBy, Entered, WellFormed, Chars, MailOf, TurnMail,
           InOrder, PairsOf, Explained, Standing, Concluded, Working, WorkedOn, NeverSpent, Affordable, Spent;
      ReadyIsConsistent();
      var result := Exchange(iteration);
      if result.Success? {
        next := Digest(result.reply, iteration == cfg.maxIterations);
      } else {
        next := Fail(result.Refused?);
      }
    }

    /** One iteration of the main loop. */
    method Turn(iteration: nat) returns (next: Next)
      requires ValidConfig(cfg) && Ready() && iteration == Turns(ledger.traces)
      modifies this, transcript
      ensures Consistent()
      ensures next.Continue? ==> Ready() && Turns(ledger.traces) == iteration + 1
      ensures next.Stop? ==> Honest(next.outcome)
      ensures |chats| <= |old(chats)| + cfg.maxRetries + 1
      ensures iteration == cfg.maxIterations ==> next.Stop?
    {
      hide Ready, Consistent, Bookings, Guarded, OperatorTexts, WellFormed, StandingOf, Spent;
      var aborted := Aborted();
      ReadyIsConsistent();
      if aborted {
        next := Stop(CANCELLED);
      } else {
        next := Converse(iteration);
      }
    }

    /** The main loop. The answer turn always stops, so its bound is never what ends it. */
    method Iterate() returns (outcome: Outcome)
      requires ValidConfig(cfg) && Ready() && chats == [] && ledger == EMPTY_LEDGER
      modifies this, transcript
      ensures Consistent() && Honest(outcome)
      ensures |chats| <= (cfg.maxIterations + 1) * (cfg.maxRetries + 1)
    {
      hide Ready, Consistent, Bookings, Guarded, OperatorTexts, WellFormed, StandingOf;
      var iteration := 0;
      ghost var bound := 0;
      while true
        invariant 0 <= iteration <= cfg.maxIterations && |chats| <= bound
        invariant Ready() && iteration == Turns(ledger.traces)
        invariant bound == iteration * (cfg.maxRetries + 1)
        decreases cfg.maxIterations - iteration
      {
        var next := Turn(iteration);
        bound := bound + cfg.maxRetries + 1;
        BoundGrows(iteration, cfg.maxIterations, cfg.maxRetries + 1);
        if next.Stop? {
          return next.outcome;
        }
        iteration := iteration + 1;
      }
    }

    /** The last trace of a run. */
    method Complete(ghost outcome: Outcome)
      requires Consistent() && Honest(outcome)
      modifies this`ledger
      ensures Consistent() && Honest(outcome)
      ensures ledger.traces != [] && ledger.traces[|ledger.traces| - 1].event == RunComplete
    {
      hide Numbered, Bookings, Spaced, Refines, Guarded, OperatorTexts, AllFormed, InputSum, OutputSum,
           CostSum, Turns, GuardAfter, Issued, Exchanges, AnsweredOf, FromWorld, Entered, WellFormed, Chars,
           StandingOf;
      Emit(RunComplete);
    }

    /**
     * The whole run. Aborted before it began, it leaves no trace at all. Otherwise it ends
     * after boundedly many requests, all of them well formed, and its last trace says so;
     * its ledger books exactly the answered requests, with ids that all differ; its guard
     * comes from exactly the calls of those answers, each run if and only if nothing blocked
     * it; the messages of the caller, the operator and the loop itself all still stand in the
     * transcript, in order, the operator's as the polls brought them, one poll a turn; it is
     * refused only if compaction cannot shrink the context any further; and its outcome is
     * what happened: the last answer, an abort, a spent budget, or a call that failed.
     */
    method Execution() returns (outcome: Outcome)
      requires ValidConfig(cfg) && Ready() && chats == [] && ledger == EMPTY_LEDGER
      modifies this, transcript
      ensures Consistent() && Honest(outcome) && Budgeted(outcome)
      ensures |chats| <= (cfg.maxIterations + 1) * (cfg.maxRetries + 1)
      ensures world.aborted(old(checks)) ==>
                && outcome == CANCELLED && ledger == EMPTY_LEDGER && chats == []
                && transcript.messages == old(transcript.messages)
      ensures !world.aborted(old(checks)) ==>
                ledger.traces != [] && ledger.traces[|ledger.traces| - 1].event == RunComplete
    {
      hide Ready, Consistent, Numbered, Bookings, Spaced, Guarded, OperatorTexts, AllFormed, WellFormed,
           StandingOf;
      var aborted := Aborted();
      if aborted {
        NoneSent(cfg.maxIterations, cfg.maxRetries);
        ReadyIsConsistent();
        EndsBudgeted(CANCELLED);
        return CANCELLED;
      }
      outcome := Iterate();
      Complete(outcome);
      EndsBudgeted(outcome);
    }
  }

  lemma {:induction false} NoneSent(n: nat, k: nat)
    ensures 0 <= (n + 1) * (k + 1)
  {
  }

  lemma {:induction false} BoundGrows(i: nat, n: nat, k: nat)
    requires i <= n
    ensures i * k + k == (i + 1) * k <= (n + 1) * k
  {
  }
}
