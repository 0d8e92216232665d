/** The durable-workflow harness: a journal of committed side effects, crashes and replay. */
module Workflow {
  import opened Common

  datatype Kind = Spawn | AwaitTask | Signal | AwaitSignal | Sleep

  /** What an operation of the context resolves to or rejects with. */
  datatype Reply =
    | Value(value: string)
    | TaskFailed(uid: string, reason: string, detail: string)
    | TimedOut(step: string, elapsedMs: nat)
    | Failure(text: string)

  datatype Action = Return(value: string) | Throw(error: Reply) | Step(kind: Kind, name: string, input: string)

  /** Deterministic author code: what it does next is a function of all it has been told. */
  type Code = seq<Reply> -> Action

  /** How the side effect behind each step settles. */
  type Effects = (Kind, string, string) -> Reply

  // ---------------------------------------------------------------- the journal

  datatype Entry =
    | Spawned(step: string, handle: string)
    | TaskDone(step: string, outputs: string)
    | TaskBroke(step: string, uid: string, reason: string, detail: string)
    | Signalled(step: string)
    | Received(step: string, payload: string)
    | Expired(step: string, elapsedMs: nat)
    | Slept(step: string)

  /** The first entry of a step. */
  function Find(journal: seq<Entry>, name: string): Option<Entry> {
    if journal == [] then None
    else if journal[0].step == name then Some(journal[0])
    else Find(journal[1..], name)
  }

  /** The entry a settled effect leaves; most rejections leave none. */
  function Recorded(kind: Kind, name: string, answer: Reply): (e: Option<Entry>)
    ensures e.Some? ==> e.value.step == name
  {
    match (kind, answer)
    case (Spawn, Value(v)) => Some(Spawned(name, v))
    case (AwaitTask, Value(v)) => Some(TaskDone(name, v))
    case (AwaitTask, TaskFailed(uid, reason, detail)) => Some(TaskBroke(name, uid, reason, detail))
    case (Signal, Value(_)) => Some(Signalled(name))
    case (AwaitSignal, Value(v)) => Some(Received(name, v))
    case (AwaitSignal, TimedOut(_, ms)) => Some(Expired(name, ms))
    case (Sleep, Value(_)) => Some(Slept(name))
    case _ => None
  }

  /** What the author code hears of an effect that just settled. */
  function Heard(kind: Kind, answer: Reply): Reply {
    if (kind.Signal? || kind.Sleep?) && answer.Value? then Value("") else answer
  }

  /** What the author code hears of a step that is in the journal already. */
  function Recalled(kind: Kind, e: Entry): Reply {
    match (kind, e)
    case (Spawn, Spawned(_, handle)) => Value(handle)
    case (AwaitTask, TaskDone(_, outputs)) => Value(outputs)
    case (AwaitTask, TaskBroke(_, uid, reason, detail)) => TaskFailed(uid, reason, detail)
    case (Signal, Signalled(_)) => Value("")
    case (AwaitSignal, Received(_, payload)) => Value(payload)
    case (AwaitSignal, Expired(step, ms)) => TimedOut(step, ms)
    case (Sleep, Slept(_)) => Value("")
    case _ => Failure("step \"" + e.step + "\" was previously committed as another kind")
  }

  /** Journaled results replay exactly, except for the step name a timeout carries. */
  lemma {:induction false} RecalledExactly(kind: Kind, name: string, answer: Reply)
    requires Recorded(kind, name, answer).Some?
    ensures Recalled(kind, Recorded(kind, name, answer).value) == Heard(kind, answer)
            <==> (kind.AwaitSignal? && answer.TimedOut? ==> answer.step == name)
    ensures kind.AwaitSignal? && answer.TimedOut? ==>
              Recalled(kind, Recorded(kind, name, answer).value) == TimedOut(name, answer.elapsedMs)
  {
    match (kind, answer)
    case (AwaitSignal, TimedOut(_, _)) =>
    case _ =>
  }

  lemma {:induction false} FindGrows(journal: seq<Entry>, longer: seq<Entry>, name: string)
    requires journal <= longer && Find(journal, name).Some?
    ensures Find(longer, name) == Find(journal, name)
  {
    if journal[0].step != name {
      FindGrows(journal[1..], longer[1..], name);
    }
  }

  lemma {:induction false} FindAppend(journal: seq<Entry>, e: Entry, name: string)
    requires Find(journal, name).None?
    ensures Find(journal + [e], name) == if e.step == name then Some(e) else None
  {
    if journal == [] {
      assert Find([e][1..], name) == None;
    } else {
      assert (journal + [e])[1..] == journal[1..] + [e];
      FindAppend(journal[1..], e, name);
    }
  }

  function Names(journal: seq<Entry>): seq<string> {
    seq(|journal|, i requires 0 <= i < |journal| => journal[i].step)
  }

  lemma {:induction false} FindNone(journal: seq<Entry>, name: string)
    requires name !in Names(journal)
    ensures Find(journal, name).None?
  {
    if journal != [] {
      assert Names(journal)[0] == journal[0].step;
      assert Names(journal)[1..] == Names(journal[1..]);
      FindNone(journal[1..], name);
    }
  }

  // ---------------------------------------------------------------- one execution

  /** One side effect issued, and whether its result went into the journal. */
  datatype Call = Call(kind: Kind, name: string, input: string, committed: bool)

  /** How author code has fared after a number of steps. */
  datatype Outcome = Completed(value: string) | Threw(error: Reply) | Crashed | Running(heard: seq<Reply>)

  datatype Run = Run(outcome: Outcome, journal: seq<Entry>, calls: seq<Call>)

  datatype Performed = Performed(reply: Option<Reply>, journal: seq<Entry>, calls: seq<Call>, left: Option<nat>)

  const OVERFLOW := Failure("exceeded maxCommits")

  /** One step: replayed from the journal, or issued and committed. `left` counts commits to the crash. */
  function Perform(
    kind: Kind, name: string, input: string, effects: Effects,
    maxCommits: nat, left: Option<nat>, journal: seq<Entry>): Performed
  {
    match Find(journal, name)
    case Some(e) => Performed(Some(Recalled(kind, e)), journal, [], left)
    case None =>
      var answer := effects(kind, name, input);
      match Recorded(kind, name, answer)
      case None => Performed(Some(Heard(kind, answer)), journal, [Call(kind, name, input, false)], left)
      case Some(e) =>
        var longer := journal + [e];
        var calls := [Call(kind, name, input, true)];
        var less := if left.Some? && left.value > 0 then Some(left.value - 1) else left;
        if |longer| > maxCommits then Performed(Some(OVERFLOW), longer, calls, less)
        else if left.Some? && left.value <= 1 then Performed(None, longer, calls, less)
        else Performed(Some(Heard(kind, answer)), longer, calls, less)
  }

  /** At most `steps` further steps of the code, from what it has heard and what is journaled. */
  function Exec(
    code: Code, effects: Effects, maxCommits: nat, left: Option<nat>,
    heard: seq<Reply>, journal: seq<Entry>, steps: nat): Run
    decreases steps
  {
    match code(heard)
    case Return(v) => Run(Completed(v), journal, [])
    case Throw(e) => Run(Threw(e), journal, [])
    case Step(kind, name, input) =>
      if steps == 0 then Run(Running(heard), journal, [])
      else
        var p := Perform(kind, name, input, effects, maxCommits, left, journal);
        if p.reply.None? then Run(Crashed, p.journal, p.calls)
        else
          var rest := Exec(code, effects, maxCommits, p.left, heard + [p.reply.value], p.journal, steps - 1);
          Run(rest.outcome, rest.journal, p.calls + rest.calls)
  }

  /** The names of the journaled calls. */
  function Committed(calls: seq<Call>): seq<string> {
    if calls == [] then []
    else (if calls[0].committed then [calls[0].name] else []) + Committed(calls[1..])
  }

  /** The calls that left no entry. */
  function Rejected(calls: seq<Call>): seq<Call> {
    if calls == [] then []
    else (if calls[0].committed then [] else [calls[0]]) + Rejected(calls[1..])
  }

  lemma {:induction false} CommittedFirst(calls: seq<Call>, rest: seq<Call>)
    requires |calls| <= 1
    ensures Committed(calls + rest) == Committed(calls) + Committed(rest)
    ensures Rejected(calls + rest) == Rejected(calls) + Rejected(rest)
  {
    if calls == [] {
      assert calls + rest == rest;
      assert Committed(calls) + Committed(rest) == Committed(rest);
      assert Rejected(calls) + Rejected(rest) == Rejected(rest);
    } else {
      assert (calls + rest)[1..] == rest && calls[1..] == [];
      assert Committed(calls) + Committed(rest) == Committed(calls + rest);
      assert Rejected(calls) + Rejected(rest) == Rejected(calls + rest);
    }
  }

  lemma {:induction false} PerformGrows(
    kind: Kind, name: string, input: string, effects: Effects,
    maxCommits: nat, left: Option<nat>, journal: seq<Entry>, p: Performed)
    requires p == Perform(kind, name, input, effects, maxCommits, left, journal)
    ensures journal <= p.journal && |p.calls| <= 1
    ensures Names(p.journal) == Names(journal) + Committed(p.calls)
  {
    if p.calls != [] {
      assert p.calls[1..] == [];
    }
  }

  /** The journal only grows, by one entry for each committed call, in call order. */
  lemma {:induction false} JournalGrows(
    code: Code, effects: Effects, maxCommits: nat, left: Option<nat>,
    heard: seq<Reply>, journal: seq<Entry>, steps: nat, run: Run)
    requires run == Exec(code, effects, maxCommits, left, heard, journal, steps)
    ensures journal <= run.journal
    ensures Names(run.journal) == Names(journal) + Committed(run.calls)
    decreases steps
  {
    var a := code(heard);
    if a.Step? && steps > 0 {
      var p := Perform(a.kind, a.name, a.input, effects, maxCommits, left, journal);
      PerformGrows(a.kind, a.name, a.input, effects, maxCommits, left, journal, p);
      if p.reply.Some? {
        var heard' := heard + [p.reply.value];
        var rest := Exec(code, effects, maxCommits, p.left, heard', p.journal, steps - 1);
        JournalGrows(code, effects, maxCommits, p.left, heard', p.journal, steps - 1, rest);
        CommittedFirst(p.calls, rest.calls);
        AppendAssociates(Names(journal), Committed(p.calls), Committed(rest.calls));
      }
    } else {
      assert Names(journal) + [] == Names(journal);
    }
  }

  // ---------------------------------------------------------------- crash and replay

  /** A timeout names the step it belongs to. */
  ghost predicate Honest(effects: Effects) {
    forall name, input ::
      var answer := effects(AwaitSignal, name, input);
      answer.TimedOut? ==> answer.step == name
  }

  /** No step that was rejected without an entry lends its name to a later, journaled step. */
  ghost predicate Steady(calls: seq<Call>) {
    calls != [] ==>
      && (!calls[0].committed ==> calls[0].name !in Committed(calls[1..]))
      && Steady(calls[1..])
  }

  /** Each step is called under its own name. */
  ghost predicate Distinct(calls: seq<Call>) {
    calls != [] ==> Free(calls[1..], calls[0].name) && Distinct(calls[1..])
  }

  lemma {:induction false} FreeNotCommitted(calls: seq<Call>, name: string)
    requires Free(calls, name)
    ensures name !in Committed(calls)
  {
    if calls != [] {
      FreeNotCommitted(calls[1..], name);
    }
  }

  /** Distinct step names are enough. */
  lemma {:induction false} DistinctIsSteady(calls: seq<Call>)
    requires Distinct(calls)
    ensures Steady(calls)
  {
    if calls != [] {
      FreeNotCommitted(calls[1..], calls[0].name);
      DistinctIsSteady(calls[1..]);
    }
  }

  /** The replay repeats the rejected calls of the crashed execution and makes its missing ones. */
  ghost predicate Continues(crashed: seq<Call>, full: seq<Call>, replay: seq<Call>) {
    crashed <= full && replay == Rejected(crashed) + full[|crashed|..]
  }

  lemma {:induction false} ContinuesStep(
    h: seq<Call>, crashed: seq<Call>, full: seq<Call>, replay: seq<Call>)
    requires Continues(crashed, full, replay) && |h| <= 1
    ensures Continues(h + crashed, h + full, Rejected(h) + replay)
  {
    CommittedFirst(h, crashed);
    assert (h + full)[|h + crashed|..] == full[|crashed|..];
    AppendAssociates(Rejected(h), Rejected(crashed), full[|crashed|..]);
  }

  lemma {:induction false} ContinuesAtCrash(h: seq<Call>, full: seq<Call>)
    ensures Continues(h, h + full, Rejected(h) + full)
  {
    assert (h + full)[|h|..] == full;
  }

  /** A step replayed against a journal that already holds its result, if it left one. */
  lemma {:induction false} StepAgrees(
    kind: Kind, name: string, input: string, effects: Effects, maxCommits: nat, left: Option<nat>,
    journal: seq<Entry>, later: seq<Entry>, crashed: Performed, full: Performed, replay: Performed)
    requires crashed == Perform(kind, name, input, effects, maxCommits, left, journal)
    requires full == Perform(kind, name, input, effects, maxCommits, None, journal)
    requires replay == Perform(kind, name, input, effects, maxCommits, None, later)
    requires crashed.journal <= later && |crashed.journal| <= maxCommits && Honest(effects)
    requires Find(crashed.journal, name).None? ==> Find(later, name).None?
    ensures full.reply.Some? && replay.reply == full.reply
    ensures crashed.reply.Some? ==> crashed.reply == full.reply
    ensures full.journal == crashed.journal && full.calls == crashed.calls && full.left.None?
    ensures replay.journal == later && replay.calls == Rejected(crashed.calls) && replay.left.None?
  {
    var answer := effects(kind, name, input);
    if Find(journal, name).Some? {
      FindGrows(journal, later, name);
    } else if Recorded(kind, name, answer).Some? {
      FindAppend(journal, Recorded(kind, name, answer).value, name);
      FindGrows(crashed.journal, later, name);
      RecalledExactly(kind, name, answer);
    } else {
      assert crashed.calls[1..] == [];
    }
  }

  /** A step that leaves no entry stays unjournaled for the rest of a steady execution. */
  lemma {:induction false} StaysUnjournaled(
    kind: Kind, name: string, input: string, effects: Effects, maxCommits: nat, left: Option<nat>,
    journal: seq<Entry>, p: Performed, rest: seq<Call>, later: seq<Entry>)
    requires p == Perform(kind, name, input, effects, maxCommits, left, journal)
    requires Steady(p.calls + rest) && Names(later) == Names(p.journal) + Committed(rest)
    ensures Find(p.journal, name).None? ==> Find(later, name).None?
  {
    if Find(p.journal, name).None? && Find(journal, name).None? {
      if Recorded(kind, name, effects(kind, name, input)).Some? {
        FindAppend(journal, Recorded(kind, name, effects(kind, name, input)).value, name);
      } else {
        assert (p.calls + rest)[1..] == rest;
        NotFoundNotNamed(journal, name);
        FindNone(later, name);
      }
    }
  }

  lemma {:induction false} NotFoundNotNamed(journal: seq<Entry>, name: string)
    requires Find(journal, name).None?
    ensures name !in Names(journal)
  {
    if journal != [] {
      NotFoundNotNamed(journal[1..], name);
      assert Names(journal) == [journal[0].step] + Names(journal[1..]);
    }
  }

  lemma {:induction false} SteadyRest(h: seq<Call>, rest: seq<Call>)
    requires |h| <= 1 && Steady(h + rest)
    ensures Steady(rest)
  {
    assert (h + rest)[|h|..] == rest;
    if h == [] {
      assert h + rest == rest;
    }
  }

  /** A replay that ends like the uninterrupted execution, and makes up for the crashed one. */
  ghost predicate Resumed(crashed: Run, full: Run, replay: Run) {
    && replay.outcome == full.outcome && replay.journal == full.journal
    && crashed.journal <= full.journal
    && Continues(crashed.calls, full.calls, replay.calls)
  }

  /** The execution from the step `p` on, when the rest of it is `rest`. */
  function After(p: Performed, rest: Run): Run {
    Run(rest.outcome, rest.journal, p.calls + rest.calls)
  }

  lemma {:induction false} ResumedStep(
    pc: Performed, pf: Performed, pr: Performed, c: Run, f: Run, r: Run)
    requires Resumed(c, f, r) && |pc.calls| <= 1
    requires pf.calls == pc.calls && pr.calls == Rejected(pc.calls)
    ensures Resumed(After(pc, c), After(pf, f), After(pr, r))
  {
    ContinuesStep(pc.calls, c.calls, f.calls, r.calls);
  }

  lemma {:induction false} ExecStep(
    code: Code, effects: Effects, maxCommits: nat, left: Option<nat>,
    heard: seq<Reply>, journal: seq<Entry>, steps: nat, p: Performed)
    requires var a := code(heard);
             && a.Step? && steps > 0
             && p == Perform(a.kind, a.name, a.input, effects, maxCommits, left, journal)
    ensures Exec(code, effects, maxCommits, left, heard, journal, steps)
         == if p.reply.None? then Run(Crashed, p.journal, p.calls)
            else After(p, Exec(code, effects, maxCommits, p.left, heard + [p.reply.value], p.journal, steps - 1))
  {
  }

  /** The crash comes right here: the replay finds this step in the journal and goes on. */
  lemma {:induction false} CrashHere(
    code: Code, effects: Effects, maxCommits: nat, left: nat,
    heard: seq<Reply>, journal: seq<Entry>, steps: nat, a: Action, pc: Performed, pf: Performed)
    requires a == code(heard) && a.Step? && steps > 0 && Honest(effects)
    requires pc == Perform(a.kind, a.name, a.input, effects, maxCommits, Some(left), journal)
    requires pf == Perform(a.kind, a.name, a.input, effects, maxCommits, None, journal)
    requires pc.reply.None?
    ensures Resumed(Run(Crashed, pc.journal, pc.calls),
                    Exec(code, effects, maxCommits, None, heard, journal, steps),
                    Exec(code, effects, maxCommits, None, heard, pc.journal, steps))
  {
    hide Exec, Find, Names;
    var pr := Perform(a.kind, a.name, a.input, effects, maxCommits, None, pc.journal);
    FirstStepAgrees(a, effects, maxCommits, left, journal, pc, pf, pr, [], pc.journal);
    ExecStep(code, effects, maxCommits, None, heard, journal, steps, pf);
    ExecStep(code, effects, maxCommits, None, heard, pc.journal, steps, pr);
    var heard' := heard + [pf.reply.value];
    var f := Exec(code, effects, maxCommits, None, heard', pf.journal, steps - 1);
    JournalGrows(code, effects, maxCommits, None, heard', pf.journal, steps - 1, f);
    ContinuesAtCrash(pc.calls, f.calls);
  }

  /** The crash comes later: the replay performs this step like the other two, or recalls it. */
  lemma {:induction false} CrashLater(
    code: Code, effects: Effects, maxCommits: nat, left: nat,
    heard: seq<Reply>, journal: seq<Entry>, steps: nat, a: Action, pc: Performed, pf: Performed,
    c: Run, f: Run)
    requires a == code(heard) && a.Step? && steps > 0 && Honest(effects)
    requires pc == Perform(a.kind, a.name, a.input, effects, maxCommits, Some(left), journal)
    requires pf == Perform(a.kind, a.name, a.input, effects, maxCommits, None, journal)
    requires pc.reply.Some? && pc.left.Some? && |pc.journal| <= maxCommits
    requires c == Exec(code, effects, maxCommits, pc.left, heard + [pc.reply.value], pc.journal, steps - 1)
    requires f == Exec(code, effects, maxCommits, None, heard + [pc.reply.value], pc.journal, steps - 1)
    requires pc.journal <= c.journal && Names(c.journal) == Names(pc.journal) + Committed(c.calls)
    requires c.outcome.Crashed? && |f.journal| <= maxCommits
    requires Steady(pc.calls + c.calls) && Steady(c.calls)
    ensures Resumed(After(pc, c), After(pf, f),
                    Exec(code, effects, maxCommits, None, heard, c.journal, steps))
    decreases steps, 0
  {
    var heard' := heard + [pc.reply.value];
    CrashThenReplay(code, effects, maxCommits, pc.left.value, heard', pc.journal, steps - 1, c, f);
    var pr := Perform(a.kind, a.name, a.input, effects, maxCommits, None, c.journal);
    FirstStepAgrees(a, effects, maxCommits, left, journal, pc, pf, pr, c.calls, c.journal);
    ExecStep(code, effects, maxCommits, None, heard, c.journal, steps, pr);
    ResumedStep(pc, pf, pr, c, f, Exec(code, effects, maxCommits, None, heard', c.journal, steps - 1));
  }

  /** How the uninterrupted execution goes on after a step the crashed one survives. */
  lemma {:induction false} FullGoesOn(
    code: Code, effects: Effects, maxCommits: nat, left: nat,
    heard: seq<Reply>, journal: seq<Entry>, steps: nat, a: Action, pc: Performed, pf: Performed, f: Run)
    requires a == code(heard) && a.Step? && steps > 0
    requires pc == Perform(a.kind, a.name, a.input, effects, maxCommits, Some(left), journal)
    requires pf == Perform(a.kind, a.name, a.input, effects, maxCommits, None, journal)
    requires pc.reply.Some?
    requires f == Exec(code, effects, maxCommits, None, heard + [pc.reply.value], pc.journal, steps - 1)
    ensures Exec(code, effects, maxCommits, None, heard, journal, steps) == After(pf, f)
    ensures pc.journal <= f.journal
  {
    hide Exec, Find, Recorded, Names, Committed;
    ExecStep(code, effects, maxCommits, None, heard, journal, steps, pf);
    JournalGrows(code, effects, maxCommits, None, heard + [pc.reply.value], pc.journal, steps - 1, f);
  }

  /** How the crashed execution goes on after a step it survives. */
  lemma {:induction false} CrashedGoesOn(
    code: Code, effects: Effects, maxCommits: nat, left: nat,
    heard: seq<Reply>, journal: seq<Entry>, steps: nat, a: Action, pc: Performed, c: Run)
    requires a == code(heard) && a.Step? && steps > 0
    requires pc == Perform(a.kind, a.name, a.input, effects, maxCommits, Some(left), journal)
    requires pc.reply.Some?
    requires c == Exec(code, effects, maxCommits, pc.left, heard + [pc.reply.value], pc.journal, steps - 1)
    requires Steady(pc.calls + c.calls)
    ensures pc.left.Some? && Steady(c.calls)
    ensures pc.journal <= c.journal && Names(c.journal) == Names(pc.journal) + Committed(c.calls)
  {
    hide Exec, Find, Recorded, Names, Committed;
    JournalGrows(code, effects, maxCommits, pc.left, heard + [pc.reply.value], pc.journal, steps - 1, c);
    SteadyRest(pc.calls, c.calls);
  }

  /**
   * Crash after any number of commits, then replay: outcome and journal of the uninterrupted
   * execution, the crashed journal as a prefix, and only calls that left no entry made twice.
   */
  lemma {:induction false} CrashThenReplay(
    code: Code, effects: Effects, maxCommits: nat, left: nat,
    heard: seq<Reply>, journal: seq<Entry>, steps: nat, crashed: Run, full: Run)
    requires crashed == Exec(code, effects, maxCommits, Some(left), heard, journal, steps)
    requires full == Exec(code, effects, maxCommits, None, heard, journal, steps)
    requires crashed.outcome.Crashed? && |full.journal| <= maxCommits
    requires Honest(effects) && Steady(crashed.calls)
    ensures Resumed(crashed, full, Exec(code, effects, maxCommits, None, heard, crashed.journal, steps))
    decreases steps, 1
  {
    var a := code(heard);
    var pc := Perform(a.kind, a.name, a.input, effects, maxCommits, Some(left), journal);
    var pf := Perform(a.kind, a.name, a.input, effects, maxCommits, None, journal);
    ExecStep(code, effects, maxCommits, Some(left), heard, journal, steps, pc);
    if pc.reply.None? {
      CrashHere(code, effects, maxCommits, left, heard, journal, steps, a, pc, pf);
    } else {
      var heard' := heard + [pc.reply.value];
      var c := Exec(code, effects, maxCommits, pc.left, heard', pc.journal, steps - 1);
      var f := Exec(code, effects, maxCommits, None, heard', pc.journal, steps - 1);
      CrashedGoesOn(code, effects, maxCommits, left, heard, journal, steps, a, pc, c);
      FullGoesOn(code, effects, maxCommits, left, heard, journal, steps, a, pc, pf, f);
      CrashLater(code, effects, maxCommits, left, heard, journal, steps, a, pc, pf, c, f);
    }
  }

  lemma {:induction false} FirstStepAgrees(
    a: Action, effects: Effects, maxCommits: nat, left: nat, journal: seq<Entry>,
    pc: Performed, pf: Performed, pr: Performed, rest: seq<Call>, later: seq<Entry>)
    requires a.Step?
    requires pc == Perform(a.kind, a.name, a.input, effects, maxCommits, Some(left), journal)
    requires pf == Perform(a.kind, a.name, a.input, effects, maxCommits, None, journal)
    requires pr == Perform(a.kind, a.name, a.input, effects, maxCommits, None, later)
    requires pc.journal <= later && Names(later) == Names(pc.journal) + Committed(rest)
    requires |pc.journal| <= maxCommits && Honest(effects) && Steady(pc.calls + rest)
    ensures pf.reply.Some? && pr.reply == pf.reply
    ensures pc.reply.Some? ==> pc.reply == pf.reply && pc.left.Some?
    ensures pf.journal == pc.journal && pf.calls == pc.calls && pf.left.None?
    ensures pr.journal == later && pr.calls == Rejected(pc.calls) && pr.left.None?
    ensures |pc.calls| <= 1
  {
    StaysUnjournaled(a.kind, a.name, a.input, effects, maxCommits, Some(left), journal, pc, rest, later);
    StepAgrees(a.kind, a.name, a.input, effects, maxCommits, Some(left), journal, later, pc, pf, pr);
  }

  // ---------------------------------------------------------------- what replay promises

  /** Replaying an execution that crashed at its `left`-th commit gives the uninterrupted outcome. */
  ghost predicate ReplaysRight(effects: Effects, code: Code, maxCommits: nat, left: nat, steps: nat) {
    var crashed := Exec(code, effects, maxCommits, Some(left), [], [], steps);
    var full := Exec(code, effects, maxCommits, None, [], [], steps);
    crashed.outcome.Crashed? && |full.journal| <= maxCommits && Steady(crashed.calls) ==>
      Exec(code, effects, maxCommits, None, [], crashed.journal, steps).outcome == full.outcome
  }

  /** Awaits one signal, and returns the step name a timeout carries. */
  function Probe(name: string, input: string): Code {
    (heard: seq<Reply>) =>
      if heard == [] then Step(AwaitSignal, name, input)
      else Return(if heard[0].TimedOut? then heard[0].step else "")
  }

  lemma {:induction false} ProbeRuns(
    effects: Effects, name: string, input: string, left: Option<nat>, journal: seq<Entry>, p: Performed)
    requires p == Perform(AwaitSignal, name, input, effects, 1, left, journal)
    ensures p.reply.None? ==>
              Exec(Probe(name, input), effects, 1, left, [], journal, 1) == Run(Crashed, p.journal, p.calls)
    ensures p.reply.Some? && p.reply.value.TimedOut? ==>
              Exec(Probe(name, input), effects, 1, left, [], journal, 1)
              == Run(Completed(p.reply.value.step), p.journal, p.calls)
  {
    var code := Probe(name, input);
    ExecStep(code, effects, 1, left, [], journal, 1, p);
    if p.reply.Some? && p.reply.value.TimedOut? {
      var heard' := [] + [p.reply.value];
      assert code(heard') == Return(p.reply.value.step);
      assert p.calls + [] == p.calls;
    }
  }

  lemma {:induction false} ProbeTells(effects: Effects, name: string, input: string)
    requires effects(AwaitSignal, name, input).TimedOut?
    requires effects(AwaitSignal, name, input).step != name
    ensures !ReplaysRight(effects, Probe(name, input), 1, 1, 1)
  {
    hide Names, Committed;
    var answer := effects(AwaitSignal, name, input);
    var entry := Expired(name, answer.elapsedMs);
    assert [] + [entry] == [entry];
    ProbeRuns(effects, name, input, Some(1), [], Perform(AwaitSignal, name, input, effects, 1, Some(1), []));
    ProbeRuns(effects, name, input, None, [], Perform(AwaitSignal, name, input, effects, 1, None, []));
    ProbeRuns(effects, name, input, None, [entry], Perform(AwaitSignal, name, input, effects, 1, None, [entry]));
    var calls := [Call(AwaitSignal, name, input, true)];
    assert calls[1..] == [];
    var code := Probe(name, input);
    assert Exec(code, effects, 1, Some(1), [], [], 1) == Run(Crashed, [entry], calls);
    assert Exec(code, effects, 1, None, [], [], 1) == Run(Completed(answer.step), [entry], calls);
    assert Exec(code, effects, 1, None, [], [entry], 1).outcome == Completed(name);
    assert Steady(calls);
  }

  /**
   * Replay reproduces the uninterrupted outcome of every workflow exactly when every timeout
   * carries the name of the step it was awaited under.
   */
  lemma {:induction false} ReplayRightExactly(effects: Effects)
    ensures Honest(effects) <==>
            (forall code, maxCommits, left, steps :: ReplaysRight(effects, code, maxCommits, left, steps))
  {
    if Honest(effects) {
      forall code, maxCommits, left, steps
        ensures ReplaysRight(effects, code, maxCommits, left, steps)
      {
        var crashed := Exec(code, effects, maxCommits, Some(left), [], [], steps);
        var full := Exec(code, effects, maxCommits, None, [], [], steps);
        if crashed.outcome.Crashed? && |full.journal| <= maxCommits && Steady(crashed.calls) {
          CrashThenReplay(code, effects, maxCommits, left, [], [], steps, crashed, full);
        }
      }
    } else {
      var name, input :| effects(AwaitSignal, name, input).TimedOut?
                         && effects(AwaitSignal, name, input).step != name;
      ProbeTells(effects, name, input);
    }
  }

  /** None of the calls is for this step. */
  ghost predicate Free(calls: seq<Call>, name: string) {
    calls != [] ==> calls[0].name != name && Free(calls[1..], name)
  }

  /** Once a call is committed its step is never called again. */
  ghost predicate CommittedOnce(calls: seq<Call>) {
    calls != [] ==>
      && (calls[0].committed ==> Free(calls[1..], calls[0].name))
      && CommittedOnce(calls[1..])
  }

  lemma {:induction false} FreeAfter(h: seq<Call>, rest: seq<Call>, name: string)
    requires |h| <= 1 && Free(rest, name) && (h != [] ==> h[0].name != name)
    ensures Free(h + rest, name)
  {
    if h == [] {
      assert h + rest == rest;
    } else {
      assert (h + rest)[1..] == rest;
    }
  }

  lemma {:induction false} CommittedOnceAfter(h: seq<Call>, rest: seq<Call>)
    requires CommittedOnce(rest) && |h| <= 1
    requires h != [] && h[0].committed ==> Free(rest, h[0].name)
    ensures CommittedOnce(h + rest)
  {
    if h == [] {
      assert h + rest == rest;
    } else {
      assert (h + rest)[1..] == rest;
    }
  }

  lemma {:induction false} PerformCalls(
    kind: Kind, name: string, input: string, effects: Effects,
    maxCommits: nat, left: Option<nat>, journal: seq<Entry>, p: Performed, other: string)
    requires p == Perform(kind, name, input, effects, maxCommits, left, journal)
    ensures |p.calls| <= 1 && (p.calls != [] ==> p.calls[0].name == name)
    ensures Find(journal, other).Some? ==> Find(p.journal, other).Some? && (p.calls != [] ==> name != other)
    ensures p.calls != [] && p.calls[0].committed ==> Find(p.journal, name).Some?
  {
    PerformGrows(kind, name, input, effects, maxCommits, left, journal, p);
    if Find(journal, other).Some? {
      FindGrows(journal, p.journal, other);
    }
    if p.calls != [] && p.calls[0].committed {
      FindAppend(journal, Recorded(kind, name, effects(kind, name, input)).value, name);
    }
  }

  /** No step in the journal is ever issued. */
  lemma {:induction false} OnlyNewCalls(
    code: Code, effects: Effects, maxCommits: nat, left: Option<nat>,
    heard: seq<Reply>, journal: seq<Entry>, steps: nat, name: string)
    requires Find(journal, name).Some?
    ensures Free(Exec(code, effects, maxCommits, left, heard, journal, steps).calls, name)
    decreases steps
  {
    hide Perform, Find;
    var a := code(heard);
    if a.Step? && steps > 0 {
      var p := Perform(a.kind, a.name, a.input, effects, maxCommits, left, journal);
      ExecStep(code, effects, maxCommits, left, heard, journal, steps, p);
      PerformCalls(a.kind, a.name, a.input, effects, maxCommits, left, journal, p, name);
      if p.reply.Some? {
        var heard' := heard + [p.reply.value];
        OnlyNewCalls(code, effects, maxCommits, p.left, heard', p.journal, steps - 1, name);
        FreeAfter(p.calls, Exec(code, effects, maxCommits, p.left, heard', p.journal, steps - 1).calls, name);
      }
    }
  }

  lemma {:induction false} IssuedOnce(
    code: Code, effects: Effects, maxCommits: nat, left: Option<nat>,
    heard: seq<Reply>, journal: seq<Entry>, steps: nat)
    ensures CommittedOnce(Exec(code, effects, maxCommits, left, heard, journal, steps).calls)
    decreases steps
  {
    hide Perform, Find;
    var a := code(heard);
    if a.Step? && steps > 0 {
      var p := Perform(a.kind, a.name, a.input, effects, maxCommits, left, journal);
      ExecStep(code, effects, maxCommits, left, heard, journal, steps, p);
      PerformCalls(a.kind, a.name, a.input, effects, maxCommits, left, journal, p, a.name);
      if p.reply.Some? {
        var heard' := heard + [p.reply.value];
        IssuedOnce(code, effects, maxCommits, p.left, heard', p.journal, steps - 1);
        if p.calls != [] && p.calls[0].committed {
          OnlyNewCalls(code, effects, maxCommits, p.left, heard', p.journal, steps - 1, a.name);
        }
        CommittedOnceAfter(p.calls, Exec(code, effects, maxCommits, p.left, heard', p.journal, steps - 1).calls);
      }
    }
  }

  lemma {:induction false} ContinuesWithout(crashed: seq<Call>, full: seq<Call>, replay: seq<Call>)
    requires Continues(crashed, full, replay) && Rejected(crashed) == []
    ensures crashed + replay == full
  {
    assert full == full[..|crashed|] + full[|crashed|..];
  }

  // ---------------------------------------------------------------- what lasts

  /** The answers a step keeps: a result, a failed task, a timeout; no other rejection. */
  predicate Lasting(kind: Kind, answer: Reply) {
    answer.Value? || (kind.AwaitTask? && answer.TaskFailed?) || (kind.AwaitSignal? && answer.TimedOut?)
  }

  /** What author code is told of an answer it waited for: of a signal or a sleep only that it is over. */
  function Told(kind: Kind, answer: Reply): Reply {
    match answer
    case Value(v) => if kind.Signal? || kind.Sleep? then Value("") else answer
    case _ => answer
  }

  /**
   * A lasting answer is journaled, and from any later journal the same step gives, without
   * being issued, what was told first; only the name in a timeout becomes the step's own.
   */
  lemma {:induction false} LastingIsKept(
    kind: Kind, name: string, input: string, effects: Effects,
    maxCommits: nat, left: Option<nat>, journal: seq<Entry>, later: seq<Entry>)
    requires Find(journal, name).None?
    requires var p := Perform(kind, name, input, effects, maxCommits, left, journal); p.journal <= later
    ensures var answer := effects(kind, name, input);
            var p := Perform(kind, name, input, effects, maxCommits, left, journal);
            && p.calls == [Call(kind, name, input, Lasting(kind, answer))]
            && |p.journal| == |journal| + (if Lasting(kind, answer) then 1 else 0)
            && (!Lasting(kind, answer) ==> p.reply == Some(Told(kind, answer)) && p.left == left)
            && (Lasting(kind, answer) ==>
                  var again := Perform(kind, name, input, effects, maxCommits, None, later);
                  && Find(p.journal, name).Some? && again.calls == [] && again.journal == later
                  && again.reply == Some(if kind.AwaitSignal? && answer.TimedOut?
                                         then TimedOut(name, answer.elapsedMs) else Told(kind, answer)))
  {
    var answer := effects(kind, name, input);
    if Recorded(kind, name, answer).Some? {
      FindAppend(journal, Recorded(kind, name, answer).value, name);
      FindGrows(journal + [Recorded(kind, name, answer).value], later, name);
    }
  }

  /** Every one of these calls was answered with something that lasts. */
  ghost predicate AllLast(effects: Effects, calls: seq<Call>) {
    forall i :: 0 <= i < |calls| ==> Lasting(calls[i].kind, effects(calls[i].kind, calls[i].name, calls[i].input))
  }

  /** A call is marked as committed exactly if its answer lasts. */
  lemma {:induction false} CommittedLast(
    code: Code, effects: Effects, maxCommits: nat, left: Option<nat>,
    heard: seq<Reply>, journal: seq<Entry>, steps: nat)
    ensures var calls := Exec(code, effects, maxCommits, left, heard, journal, steps).calls;
            forall i :: 0 <= i < |calls| ==>
              calls[i].committed == Lasting(calls[i].kind, effects(calls[i].kind, calls[i].name, calls[i].input))
    decreases steps
  {
    hide Lasting, Recorded, Recalled;
    var a := code(heard);
    if a.Step? && steps > 0 {
      var p := Perform(a.kind, a.name, a.input, effects, maxCommits, left, journal);
      ExecStep(code, effects, maxCommits, left, heard, journal, steps, p);
      if Find(journal, a.name).None? {
        LastingIsKept(a.kind, a.name, a.input, effects, maxCommits, left, journal, p.journal);
      }
      if p.reply.Some? {
        CommittedLast(code, effects, maxCommits, p.left, heard + [p.reply.value], p.journal, steps - 1);
      }
    }
  }

  lemma {:induction false} AllLastNoneRejected(effects: Effects, calls: seq<Call>)
    requires forall i :: 0 <= i < |calls| ==>
               calls[i].committed == Lasting(calls[i].kind, effects(calls[i].kind, calls[i].name, calls[i].input))
    ensures AllLast(effects, calls) <==> Rejected(calls) == []
  {
    if calls != [] {
      AllLastNoneRejected(effects, calls[1..]);
      assert calls == [calls[0]] + calls[1..];
    }
  }

  /**
   * When every call before the crash got an answer that lasts, the two executions together make
   * exactly the calls of the uninterrupted one, in its order, each journaled step once.
   */
  lemma {:induction false} EachOnceOverBoth(
    code: Code, effects: Effects, maxCommits: nat, left: nat, steps: nat,
    crashed: Run, full: Run, replay: Run)
    requires crashed == Exec(code, effects, maxCommits, Some(left), [], [], steps)
    requires full == Exec(code, effects, maxCommits, None, [], [], steps)
    requires replay == Exec(code, effects, maxCommits, None, [], crashed.journal, steps)
    requires crashed.outcome.Crashed? && |full.journal| <= maxCommits
    requires Honest(effects) && AllLast(effects, crashed.calls)
    ensures crashed.calls + replay.calls == full.calls && CommittedOnce(full.calls)
  {
    CommittedLast(code, effects, maxCommits, Some(left), [], [], steps);
    AllLastNoneRejected(effects, crashed.calls);
    NoneRejectedIsSteady(crashed.calls);
    CrashThenReplay(code, effects, maxCommits, left, [], [], steps, crashed, full);
    IssuedOnce(code, effects, maxCommits, None, [], [], steps);
    ContinuesWithout(crashed.calls, full.calls, replay.calls);
  }

  lemma {:induction false} NoneRejectedIsSteady(calls: seq<Call>)
    requires Rejected(calls) == []
    ensures Steady(calls)
  {
    if calls != [] {
      NoneRejectedIsSteady(calls[1..]);
    }
  }

  // ---------------------------------------------------------------- the workflow as if nothing were durable

  /** What the author code does when every step simply waits for its effect: no journal, no crash. */
  function Plain(code: Code, effects: Effects, heard: seq<Reply>, steps: nat): (Outcome, seq<Call>)
    decreases steps
  {
    match code(heard)
    case Return(v) => (Completed(v), [])
    case Throw(e) => (Threw(e), [])
    case Step(kind, name, input) =>
      if steps == 0 then (Running(heard), [])
      else
        var answer := effects(kind, name, input);
        var (outcome, calls) := Plain(code, effects, heard + [Told(kind, answer)], steps - 1);
        (outcome, [Call(kind, name, input, Lasting(kind, answer))] + calls)
  }

  /** How many of the calls were journaled. */
  function Commits(calls: seq<Call>): nat {
    |Committed(calls)|
  }

  /** None of the calls is for a step in the journal. */
  ghost predicate Fresh(journal: seq<Entry>, calls: seq<Call>) {
    forall i :: 0 <= i < |calls| ==> Find(journal, calls[i].name).None?
  }

  lemma {:induction false} FreeMeans(calls: seq<Call>, name: string)
    ensures Free(calls, name) <==> forall i :: 0 <= i < |calls| ==> calls[i].name != name
  {
    if calls != [] {
      FreeMeans(calls[1..], name);
      assert forall i :: 0 <= i < |calls[1..]| ==> calls[1..][i] == calls[i + 1];
    }
  }

  /** After a step under its own name the rest of the calls are still fresh. */
  /** Distinct names, position by position. */
  lemma {:induction false} DistinctExactly(calls: seq<Call>)
    ensures Distinct(calls) <==> forall i, j :: 0 <= i < j < |calls| ==> calls[i].name != calls[j].name
  {
    if calls != [] {
      var rest := calls[1..];
      DistinctExactly(rest);
      FreeMeans(rest, calls[0].name);
      assert forall j :: 0 <= j < |rest| ==> rest[j] == calls[j + 1];
      if Distinct(calls) {
        forall i, j | 0 <= i < j < |calls|
          ensures calls[i].name != calls[j].name
        {
          assert calls[j] == rest[j - 1] && (i > 0 ==> calls[i] == rest[i - 1]);
        }
      }
    }
  }

  lemma {:induction false} CommittedOnceExactly(calls: seq<Call>)
    ensures CommittedOnce(calls)
            <==> forall i, j :: 0 <= i < j < |calls| && calls[i].committed ==> calls[i].name != calls[j].name
  {
    if calls != [] {
      var rest := calls[1..];
      CommittedOnceExactly(rest);
      FreeMeans(rest, calls[0].name);
      assert forall j :: 0 <= j < |rest| ==> rest[j] == calls[j + 1];
      if CommittedOnce(calls) {
        forall i, j | 0 <= i < j < |calls| && calls[i].committed
          ensures calls[i].name != calls[j].name
        {
          assert calls[j] == rest[j - 1] && (i > 0 ==> calls[i] == rest[i - 1]);
        }
      }
    }
  }

  lemma {:induction false} StaysFresh(
    kind: Kind, name: string, input: string, effects: Effects, maxCommits: nat, journal: seq<Entry>,
    p: Performed, calls: seq<Call>)
    requires p == Perform(kind, name, input, effects, maxCommits, None, journal)
    requires Find(journal, name).None? && Fresh(journal, calls) && Free(calls, name)
    ensures Fresh(p.journal, calls)
  {
    FreeMeans(calls, name);
    if Recorded(kind, name, effects(kind, name, input)).Some? {
      forall i | 0 <= i < |calls|
        ensures Find(p.journal, calls[i].name).None?
      {
        FindAppend(journal, Recorded(kind, name, effects(kind, name, input)).value, calls[i].name);
      }
    }
  }

  /** With distinct step names, an uninterrupted execution is the plain one, and its calls are the plain calls. */
  lemma {:induction false} DurableIsPlain(
    code: Code, effects: Effects, maxCommits: nat, heard: seq<Reply>, journal: seq<Entry>, steps: nat)
    requires var (_, calls) := Plain(code, effects, heard, steps);
             Distinct(calls) && Fresh(journal, calls) && |journal| + Commits(calls) <= maxCommits
    ensures var run := Exec(code, effects, maxCommits, None, heard, journal, steps);
            && (run.outcome, run.calls) == Plain(code, effects, heard, steps)
            && |run.journal| == |journal| + Commits(run.calls)
    decreases steps
  {
    var a := code(heard);
    if a.Step? && steps > 0 {
      hide Perform, Commits, Fresh, Free;
      var p := Perform(a.kind, a.name, a.input, effects, maxCommits, None, journal);
      var heard' := heard + [Told(a.kind, effects(a.kind, a.name, a.input))];
      var calls := Plain(code, effects, heard, steps).1;
      ExecStep(code, effects, maxCommits, None, heard, journal, steps, p);
      PlainStep(code, effects, maxCommits, heard, journal, steps, a, p, calls);
      StaysFresh(a.kind, a.name, a.input, effects, maxCommits, journal, p, calls[1..]);
      DurableIsPlain(code, effects, maxCommits, heard', p.journal, steps - 1);
      assert [calls[0]] + calls[1..] == calls;
    }
  }

  lemma {:induction false} PlainStep(
    code: Code, effects: Effects, maxCommits: nat, heard: seq<Reply>, journal: seq<Entry>, steps: nat,
    a: Action, p: Performed, calls: seq<Call>)
    requires a == code(heard) && a.Step? && steps > 0 && calls == Plain(code, effects, heard, steps).1
    requires p == Perform(a.kind, a.name, a.input, effects, maxCommits, None, journal)
    requires Distinct(calls) && Fresh(journal, calls) && |journal| + Commits(calls) <= maxCommits
    ensures p.reply == Some(Told(a.kind, effects(a.kind, a.name, a.input))) && p.left.None?
    ensures p.calls == [calls[0]] && calls[0].name == a.name
    ensures Find(journal, a.name).None? && Fresh(journal, calls[1..])
    ensures |p.journal| + Commits(calls[1..]) == |journal| + Commits(calls)
  {
    var answer := effects(a.kind, a.name, a.input);
    assert calls[0] == Call(a.kind, a.name, a.input, Lasting(a.kind, answer));
    LastingIsKept(a.kind, a.name, a.input, effects, maxCommits, None, journal, p.journal);
  }

  /**
   * Crashed at any commit and replayed, a workflow with distinct step names ends as if it had
   * simply run: the same outcome, and of its calls only those whose answer does not last are
   * made again.
   */
  lemma {:induction false} RecoveredIsPlain(
    code: Code, effects: Effects, maxCommits: nat, left: nat, steps: nat,
    crashed: Run, full: Run, replay: Run)
    requires crashed == Exec(code, effects, maxCommits, Some(left), [], [], steps)
    requires full == Exec(code, effects, maxCommits, None, [], [], steps)
    requires replay == Exec(code, effects, maxCommits, None, [], crashed.journal, steps)
    requires Honest(effects)
    requires var (_, calls) := Plain(code, effects, [], steps);
             Distinct(calls) && Max(left, 1) <= Commits(calls) <= maxCommits
    ensures var (outcome, calls) := Plain(code, effects, [], steps);
            && crashed.outcome.Crashed? && crashed.calls <= calls && Commits(crashed.calls) == Max(left, 1)
            && replay.outcome == outcome
            && replay.calls == Rejected(crashed.calls) + calls[|crashed.calls|..]
            && (AllLast(effects, crashed.calls) ==> crashed.calls + replay.calls == calls)
  {
    DurableIsPlain(code, effects, maxCommits, [], [], steps);
    CrashedPrefix(code, effects, maxCommits, left, [], [], steps);
    var calls := Plain(code, effects, [], steps).1;
    DistinctPrefix(crashed.calls, calls);
    DistinctIsSteady(crashed.calls);
    CrashThenReplay(code, effects, maxCommits, left, [], [], steps, crashed, full);
    if AllLast(effects, crashed.calls) {
      EachOnceOverBoth(code, effects, maxCommits, left, steps, crashed, full, replay);
    }
  }

  lemma {:induction false} FreePrefix(calls: seq<Call>, longer: seq<Call>, name: string)
    requires calls <= longer && Free(longer, name)
    ensures Free(calls, name)
  {
    if calls != [] {
      FreePrefix(calls[1..], longer[1..], name);
    }
  }

  lemma {:induction false} DistinctPrefix(calls: seq<Call>, longer: seq<Call>)
    requires calls <= longer && Distinct(longer)
    ensures Distinct(calls)
  {
    if calls != [] {
      FreePrefix(calls[1..], longer[1..], longer[0].name);
      DistinctPrefix(calls[1..], longer[1..]);
    }
  }

  /** What recovery finds, from what the plain workflow does. */
  lemma {:induction false} RecoverIsPlain(effects: Effects, code: Code, maxCommits: nat, left: nat, steps: nat)
    requires Honest(effects)
    ensures var crashed := Exec(code, effects, maxCommits, Some(left), [], [], steps);
            var full := Exec(code, effects, maxCommits, None, [], [], steps);
            var (outcome, calls) := Plain(code, effects, [], steps);
            Distinct(calls) && Max(left, 1) <= Commits(calls) <= maxCommits ==>
              && crashed.outcome.Crashed? && |full.journal| <= maxCommits && Steady(crashed.calls)
              && full.outcome == outcome && full.calls == calls
              && (AllLast(effects, calls) ==> AllLast(effects, crashed.calls))
  {
    var calls := Plain(code, effects, [], steps).1;
    if Distinct(calls) && Max(left, 1) <= Commits(calls) <= maxCommits {
      DurableIsPlain(code, effects, maxCommits, [], [], steps);
      CrashedPrefix(code, effects, maxCommits, left, [], [], steps);
      var crashed := Exec(code, effects, maxCommits, Some(left), [], [], steps);
      DistinctPrefix(crashed.calls, calls);
      DistinctIsSteady(crashed.calls);
    }
  }

  /** A crash set for the n-th commit: the same calls up to there, or if there is none, all of them. */
  ghost predicate StopsAt(crashed: Run, full: Run, n: nat) {
    if Commits(full.calls) >= n then
      crashed.outcome.Crashed? && Commits(crashed.calls) == n && crashed.calls <= full.calls
    else crashed == full && !crashed.outcome.Crashed?
  }

  lemma {:induction false} PerformStops(
    kind: Kind, name: string, input: string, effects: Effects,
    maxCommits: nat, left: nat, journal: seq<Entry>, pc: Performed, pf: Performed)
    requires pc == Perform(kind, name, input, effects, maxCommits, Some(left), journal)
    requires pf == Perform(kind, name, input, effects, maxCommits, None, journal) && |pf.journal| <= maxCommits
    ensures pc.calls == pf.calls && pc.journal == pf.journal && pf.reply.Some? && pf.left.None? && |pf.calls| <= 1
    ensures pc.reply.None? ==> Commits(pf.calls) == 1 && left <= 1
    ensures pc.reply.Some? ==>
              && pc.reply == pf.reply && pc.left == Some(left - Commits(pf.calls))
              && (Commits(pf.calls) > 0 ==> left > 1)
  {
    if pf.calls != [] {
      assert pf.calls[1..] == [];
      assert Committed(pf.calls) == if pf.calls[0].committed then [name] else [];
    }
  }

  lemma {:induction false} StopsLater(h: seq<Call>, pc: Performed, pf: Performed, c: Run, f: Run, left: nat)
    requires pc.calls == h && pf.calls == h && |h| <= 1 && Commits(h) <= left
    requires Commits(h) > 0 ==> left > 1
    requires StopsAt(c, f, Max(left - Commits(h), 1))
    ensures StopsAt(After(pc, c), After(pf, f), Max(left, 1))
  {
    CommittedFirst(h, f.calls);
    CommittedFirst(h, c.calls);
  }

  /** The crash comes with the commit it is set for, and only if the execution gets that far. */
  lemma {:induction false} CrashedPrefix(
    code: Code, effects: Effects, maxCommits: nat, left: nat,
    heard: seq<Reply>, journal: seq<Entry>, steps: nat)
    requires |Exec(code, effects, maxCommits, None, heard, journal, steps).journal| <= maxCommits
    ensures StopsAt(Exec(code, effects, maxCommits, Some(left), heard, journal, steps),
                    Exec(code, effects, maxCommits, None, heard, journal, steps), Max(left, 1))
    decreases steps
  {
    var a := code(heard);
    if a.Step? && steps > 0 {
      hide Perform, Committed;
      var pc := Perform(a.kind, a.name, a.input, effects, maxCommits, Some(left), journal);
      var pf := Perform(a.kind, a.name, a.input, effects, maxCommits, None, journal);
      ExecStep(code, effects, maxCommits, Some(left), heard, journal, steps, pc);
      ExecStep(code, effects, maxCommits, None, heard, journal, steps, pf);
      FullKeeps(code, effects, maxCommits, heard, journal, steps, a, pf);
      PerformStops(a.kind, a.name, a.input, effects, maxCommits, left, journal, pc, pf);
      var heard' := heard + [pf.reply.value];
      var f := Exec(code, effects, maxCommits, None, heard', pf.journal, steps - 1);
      if pc.reply.None? {
        CommittedFirst(pf.calls, f.calls);
      } else {
        CrashedPrefix(code, effects, maxCommits, pc.left.value, heard', pc.journal, steps - 1);
        StopsLater(pf.calls, pc, pf, Exec(code, effects, maxCommits, pc.left, heard', pc.journal, steps - 1), f, left);
      }
    }
  }

  lemma {:induction false} FullKeeps(
    code: Code, effects: Effects, maxCommits: nat, heard: seq<Reply>, journal: seq<Entry>, steps: nat,
    a: Action, p: Performed)
    requires a == code(heard) && a.Step? && steps > 0
    requires p == Perform(a.kind, a.name, a.input, effects, maxCommits, None, journal)
    requires |Exec(code, effects, maxCommits, None, heard, journal, steps).journal| <= maxCommits
    ensures p.reply.Some? && |p.journal| <= maxCommits
  {
    ExecStep(code, effects, maxCommits, None, heard, journal, steps, p);
    if p.reply.Some? {
      var heard' := heard + [p.reply.value];
      JournalGrows(code, effects, maxCommits, None, heard', p.journal, steps - 1,
                   Exec(code, effects, maxCommits, None, heard', p.journal, steps - 1));
    }
  }

  // ---------------------------------------------------------------- the runner

  datatype State = State(journal: seq<Entry>, completed: bool)

  datatype Commitment = Kept | Overflowed | Killed

  datatype ReplayResult = NoJournal | AlreadyCompleted | Replayed(outcome: Outcome)

  /** Commits left until the simulated crash. */
  function Left(crashAfter: Option<nat>, commits: nat): Option<nat> {
    if crashAfter.None? then None else Some(Max(crashAfter.value - commits, 0))
  }

  function CountOf(counts: map<Kind, nat>, kind: Kind): nat {
    if kind in counts then counts[kind] else 0
  }

  function Tally(calls: seq<Call>, kind: Kind): nat {
    if calls == [] then 0
    else Tally(calls[..|calls| - 1], kind) + (if calls[|calls| - 1].kind == kind then 1 else 0)
  }

  /** The call counters are the tallies of the calls made so far. */
  ghost predicate Tallied(counts: map<Kind, nat>, calls: seq<Call>) {
    forall kind :: CountOf(counts, kind) == Tally(calls, kind)
  }

  lemma {:induction false} TallyAppend(counts: map<Kind, nat>, calls: seq<Call>, c: Call)
    requires Tallied(counts, calls)
    ensures Tallied(counts[c.kind := CountOf(counts, c.kind) + 1], calls + [c])
  {
    assert (calls + [c])[..|calls|] == calls;
    forall kind
      ensures CountOf(counts[c.kind := CountOf(counts, c.kind) + 1], kind) == Tally(calls + [c], kind)
    {
      assert CountOf(counts, kind) == Tally(calls, kind);
    }
  }

  datatype LogState = LogState(counts: map<Kind, nat>, calls: seq<Call>)

  /** The calls made so far, with counters that tally them by kind. */
  type Log = l: LogState | Tallied(l.counts, l.calls) witness LogState(map[], [])

  function Issued(l: Log, c: Call): (r: Log)
    ensures r.calls == l.calls + [c]
  {
    TallyAppend(l.counts, l.calls, c);
    LogState(l.counts[c.kind := CountOf(l.counts, c.kind) + 1], l.calls + [c])
  }

  class Runner {
    const code: Code
    const effects: Effects
    var states: map<string, State>
    var log: Log
    var commits: nat

    constructor (code: Code, effects: Effects)
      ensures this.code == code && this.effects == effects
      ensures states == map[] && log.calls == []
    {
      this.code, this.effects := code, effects;
      states, log, commits := map[], LogState(map[], []), 0;
    }

    /** Pushes an entry; the run dies at the configured number of commits. */
    method Commit(id: string, entry: Entry, crashAfter: Option<nat>, maxCommits: nat)
      returns (result: Commitment)
      requires id in states
      modifies this`states, this`commits
      ensures states == old(states)[id := old(states[id]).(journal := old(states[id]).journal + [entry])]
      ensures commits == old(commits) + 1
      ensures result == if |states[id].journal| > maxCommits then Overflowed
                        else if crashAfter.Some? && commits >= crashAfter.value then Killed
                        else Kept
    {
      states := states[id := states[id].(journal := states[id].journal + [entry])];
      commits := commits + 1;
      if |states[id].journal| > maxCommits {
        return Overflowed;
      }
      result := if crashAfter.Some? && commits >= crashAfter.value then Killed else Kept;
    }

    /** One operation of the context: recalled from the journal, or issued and committed. */
    method Operate(
      id: string, kind: Kind, name: string, input: string, crashAfter: Option<nat>, maxCommits: nat)
      returns (reply: Option<Reply>)
      requires id in states
      modifies this`states, this`commits, this`log
      ensures var p := Perform(kind, name, input, effects, maxCommits,
                               Left(crashAfter, old(commits)), old(states[id]).journal);
              && reply == p.reply && log.calls == old(log).calls + p.calls
              && states == old(states)[id := old(states[id]).(journal := p.journal)]
              && Left(crashAfter, commits) == p.left
    {
      var existing := Find(states[id].journal, name);
      if existing.Some? {
        assert log.calls + [] == log.calls;
        return Some(Recalled(kind, existing.value));
      }
      var answer := effects(kind, name, input);
      var entry := Recorded(kind, name, answer);
      log := Issued(log, Call(kind, name, input, entry.Some?));
      if entry.None? {
        return Some(Heard(kind, answer));
      }
      var result := Commit(id, entry.value, crashAfter, maxCommits);
      match result {
        case Overflowed => reply := Some(OVERFLOW);
        case Killed => reply := None;
        case Kept => reply := Some(Heard(kind, answer));
      }
    }

    /** Only a returned value completes an invocation; one that threw can be replayed again. */
    method Conclude(id: string, heard: seq<Reply>) returns (outcome: Outcome)
      requires id in states
      modifies this`states
      ensures outcome == match code(heard)
                         case Return(v) => Completed(v)
                         case Throw(e) => Threw(e)
                         case Step(_, _, _) => Running(heard)
      ensures states == old(states)[id := State(old(states[id]).journal,
                                                old(states[id]).completed || outcome.Completed?)]
    {
      match code(heard) {
        case Return(v) =>
          states := states[id := states[id].(completed := true)];
          outcome := Completed(v);
        case Throw(e) =>
          outcome := Threw(e);
        case Step(_, _, _) =>
          outcome := Running(heard);
      }
    }

    /** Lets the author code go on from what it has heard, for at most `steps` steps. */
    method Continue(id: string, heard: seq<Reply>, crashAfter: Option<nat>, maxCommits: nat, steps: nat)
      returns (outcome: Outcome)
      requires id in states
      modifies this`states, this`commits, this`log
      ensures var run := Exec(code, effects, maxCommits, Left(crashAfter, old(commits)), heard,
                              old(states[id]).journal, steps);
              && outcome == run.outcome && log.calls == old(log).calls + run.calls
              && states == old(states)[id := State(run.journal,
                                                   old(states[id]).completed || run.outcome.Completed?)]
      decreases steps
    {
      hide Perform, Find, Names, Committed;
      var a := code(heard);
      if !a.Step? || steps == 0 {
        assert log.calls + [] == log.calls;
        outcome := Conclude(id, heard);
        return;
      }
      ghost var before, left, journal := log.calls, Left(crashAfter, commits), states[id].journal;
      ghost var p := Perform(a.kind, a.name, a.input, effects, maxCommits, left, journal);
      ExecStep(code, effects, maxCommits, left, heard, journal, steps, p);
      var reply := Operate(id, a.kind, a.name, a.input, crashAfter, maxCommits);
      if reply.None? {
        return Crashed;
      }
      outcome := Continue(id, heard + [reply.value], crashAfter, maxCommits, steps - 1);
      AppendAssociates(before, p.calls,
        Exec(code, effects, maxCommits, p.left, heard + [reply.value], p.journal, steps - 1).calls);
    }

    /** Runs the author code in a fresh context. */
    method Drive(id: string, crashAfter: Option<nat>, maxCommits: nat, steps: nat)
      returns (outcome: Outcome)
      requires id in states
      modifies this`states, this`commits, this`log
      ensures var run := Exec(code, effects, maxCommits, Left(crashAfter, 0), [],
                              old(states[id]).journal, steps);
              && outcome == run.outcome && log.calls == old(log).calls + run.calls
              && states == old(states)[id := State(run.journal,
                                                   old(states[id]).completed || run.outcome.Completed?)]
    {
      commits := 0;
      outcome := Continue(id, [], crashAfter, maxCommits, steps);
    }

    /** Starts an invocation on an empty journal. */
    method Start(id: string, crashAfter: Option<nat>, maxCommits: nat, steps: nat) returns (outcome: Outcome)
      modifies this`states, this`commits, this`log
      ensures var run := Exec(code, effects, maxCommits, Left(crashAfter, 0), [], [], steps);
              && outcome == run.outcome && log.calls == old(log).calls + run.calls
              && states == old(states)[id := State(run.journal, run.outcome.Completed?)]
    {
      states := states[id := State([], false)];
      outcome := Drive(id, crashAfter, maxCommits, steps);
    }

    /** Runs a crashed invocation again on the journal it left behind. */
    method Replay(id: string, maxCommits: nat, steps: nat) returns (result: ReplayResult)
      modifies this`states, this`commits, this`log
      ensures id !in old(states) ==> result == NoJournal
      ensures id in old(states) && old(states[id]).completed ==> result == AlreadyCompleted
      ensures result.Replayed? <==> id in old(states) && !old(states[id]).completed
      ensures !result.Replayed? ==> states == old(states) && log.calls == old(log).calls
      ensures result.Replayed? ==>
                var run := Exec(code, effects, maxCommits, None, [], old(states[id]).journal, steps);
                && result.outcome == run.outcome && log.calls == old(log).calls + run.calls
                && states == old(states)[id := State(run.journal, run.outcome.Completed?)]
    {
      if id !in states {
        return NoJournal;
      }
      if states[id].completed {
        return AlreadyCompleted;
      }
      var outcome := Drive(id, None, maxCommits, steps);
      result := Replayed(outcome);
    }

    /**
     * Starts, crashes and replays an invocation: the value, the journal and the calls of an
     * execution that was never interrupted, apart from calls that had been rejected.
     */
    method Recover(id: string, crashAfter: nat, maxCommits: nat, steps: nat) returns (result: ReplayResult)
      requires Honest(effects)
      modifies this`states, this`commits, this`log
      ensures var crashed := Exec(code, effects, maxCommits, Left(Some(crashAfter), 0), [], [], steps);
              var full := Exec(code, effects, maxCommits, None, [], [], steps);
              crashed.outcome.Crashed? && |full.journal| <= maxCommits && Steady(crashed.calls) ==>
                && result == Replayed(full.outcome) && id in states && states[id].journal == full.journal
                && (AllLast(effects, crashed.calls) ==> log.calls == old(log).calls + full.calls)
      ensures var (value, calls) := Plain(code, effects, [], steps);
              Distinct(calls) && Max(crashAfter, 1) <= Commits(calls) <= maxCommits ==>
                && result == Replayed(value)
                && (AllLast(effects, calls) ==> log.calls == old(log).calls + calls)
    {
      ghost var crashed := Exec(code, effects, maxCommits, Left(Some(crashAfter), 0), [], [], steps);
      ghost var full := Exec(code, effects, maxCommits, None, [], [], steps);
      ghost var before := log.calls;
      var outcome := Start(id, Some(crashAfter), maxCommits, steps);
      result := Replay(id, maxCommits, steps);
      if outcome.Crashed? && |full.journal| <= maxCommits && Steady(crashed.calls) {
        CrashThenReplay(code, effects, maxCommits, crashAfter, [], [], steps, crashed, full);
        ghost var again := Exec(code, effects, maxCommits, None, [], crashed.journal, steps);
        AppendAssociates(before, crashed.calls, again.calls);
        if AllLast(effects, crashed.calls) {
          EachOnceOverBoth(code, effects, maxCommits, crashAfter, steps, crashed, full, again);
        }
      }
      RecoverIsPlain(effects, code, maxCommits, crashAfter, steps);
    }
  }
}
