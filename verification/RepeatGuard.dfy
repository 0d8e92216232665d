/** The guard against repeated tool calls, and the call history it summarises. */
module RepeatGuard {
  import opened Common

  /** One tool call the model asked for: was it run, and did it succeed? */
  datatype Attempt = Attempt(signature: string, tool: string, dispatched: bool, succeeded: bool)

  function Count(counts: map<string, nat>, key: string): nat {
    if key in counts then counts[key] else 0
  }

  /** The attempts at `signature` since the last success of a different signature. */
  function Since(history: seq<Attempt>, signature: string): nat {
    if history == [] then 0
    else
      var last, before := history[|history| - 1], history[..|history| - 1];
      if last.signature == signature then Since(before, signature) + 1
      else if last.succeeded then 0
      else Since(before, signature)
  }

  /** The attempts at one tool, whatever the arguments. */
  function OfTool(history: seq<Attempt>, tool: string): nat {
    if history == [] then 0
    else
      OfTool(history[..|history| - 1], tool) +
      (if history[|history| - 1].tool == tool then 1 else 0)
  }

  /** The stored counts are exactly those two functions of the history. */
  ghost predicate Refines(
    identical: map<string, nat>, perTool: map<string, nat>, history: seq<Attempt>)
  {
    && (forall s :: Count(identical, s) == Since(history, s))
    && (forall t :: Count(perTool, t) == OfTool(history, t))
  }

  predicate WithinLimit(n: nat, limit: Option<nat>) {
    limit.Some? ==> n <= limit.value
  }

  /** No attempt was run past a limit. */
  ghost predicate Guarded(history: seq<Attempt>, maxIdentical: nat, maxPerTool: Option<nat>) {
    history != [] ==>
      var last := history[|history| - 1];
      && Guarded(history[..|history| - 1], maxIdentical, maxPerTool)
      && (last.dispatched ==>
            && Since(history, last.signature) <= maxIdentical
            && WithinLimit(OfTool(history, last.tool), maxPerTool))
  }

  /** Counting a call that has not been run yet. */
  lemma {:induction false} CountingRefines(
    identical: map<string, nat>, perTool: map<string, nat>, history: seq<Attempt>, a: Attempt)
    requires Refines(identical, perTool, history) && !a.succeeded
    ensures Refines(identical[a.signature := Count(identical, a.signature) + 1],
                    perTool[a.tool := Count(perTool, a.tool) + 1], history + [a])
  {
    var longer := history + [a];
    assert longer[..|longer| - 1] == history;
    forall s
      ensures Count(identical[a.signature := Count(identical, a.signature) + 1], s) == Since(longer, s)
    {
      assert Count(identical, s) == Since(history, s);
    }
    forall t
      ensures Count(perTool[a.tool := Count(perTool, a.tool) + 1], t) == OfTool(longer, t)
    {
      assert Count(perTool, t) == OfTool(history, t);
    }
  }

  lemma {:induction false} CountingGuarded(
    history: seq<Attempt>, a: Attempt, maxIdentical: nat, maxPerTool: Option<nat>)
    requires Guarded(history, maxIdentical, maxPerTool) && !a.dispatched
    ensures Guarded(history + [a], maxIdentical, maxPerTool)
  {
    assert (history + [a])[..|history|] == history;
  }

  /** The history once its last attempt has been run. */
  function Run(history: seq<Attempt>, succeeded: bool): seq<Attempt>
    requires history != []
  {
    var n := |history| - 1;
    history[..n] + [history[n].(dispatched := true, succeeded := succeeded)]
  }

  /** Only a success changes the stored counts: it forgets every other signature. */
  lemma {:induction false} RunRefines(
    identical: map<string, nat>, perTool: map<string, nat>, history: seq<Attempt>, succeeded: bool)
    requires Refines(identical, perTool, history)
    requires history != [] && !history[|history| - 1].succeeded
    ensures var s := history[|history| - 1].signature;
            Refines(if succeeded then map[s := Count(identical, s)] else identical, perTool,
                    Run(history, succeeded))
  {
    var n := |history| - 1;
    var after := Run(history, succeeded);
    assert after[..n] == history[..n];
    var last := history[n].signature;
    var kept := if succeeded then map[last := Count(identical, last)] else identical;
    forall s
      ensures Count(kept, s) == Since(after, s)
    {
      assert Count(identical, s) == Since(history, s);
    }
    forall t
      ensures Count(perTool, t) == OfTool(after, t)
    {
      assert Count(perTool, t) == OfTool(history, t);
    }
  }

  lemma {:induction false} RunGuarded(
    history: seq<Attempt>, succeeded: bool, maxIdentical: nat, maxPerTool: Option<nat>)
    requires Guarded(history, maxIdentical, maxPerTool) && history != []
    requires Since(history, history[|history| - 1].signature) <= maxIdentical
    requires WithinLimit(OfTool(history, history[|history| - 1].tool), maxPerTool)
    ensures Guarded(Run(history, succeeded), maxIdentical, maxPerTool)
  {
    var n := |history| - 1;
    var after := Run(history, succeeded);
    assert after[..n] == history[..n];
  }

  /** No success of another signature is recorded from position `i` on. */
  ghost predicate Alone(history: seq<Attempt>, signature: string, i: nat) {
    forall k :: i <= k < |history| ==> !(history[k].succeeded && history[k].signature != signature)
  }

  /** The attempts that count against the limit on identical calls. */
  ghost function Counting(history: seq<Attempt>, signature: string): set<nat> {
    set k: nat | k < |history| && history[k].signature == signature && Alone(history, signature, k)
  }

  lemma {:induction false} AloneAppend(history: seq<Attempt>, a: Attempt, signature: string, i: nat)
    requires i <= |history|
    ensures Alone(history + [a], signature, i)
            <==> Alone(history, signature, i) && !(a.succeeded && a.signature != signature)
  {
    var longer := history + [a];
    assert longer[|history|] == a;
    assert forall k :: 0 <= k < |history| ==> longer[k] == history[k];
  }

  lemma {:induction false} CountingAppend(history: seq<Attempt>, a: Attempt, signature: string)
    ensures Counting(history + [a], signature)
         == if a.signature == signature then Counting(history, signature) + {|history|}
            else if a.succeeded then {} else Counting(history, signature)
  {
    hide Alone;
    forall k: nat | k <= |history|
      ensures Alone(history + [a], signature, k)
              <==> Alone(history, signature, k) && !(a.succeeded && a.signature != signature)
    {
      AloneAppend(history, a, signature, k);
    }
    AloneAtEnd(history, signature);
  }

  lemma {:induction false} AloneAtEnd(history: seq<Attempt>, signature: string)
    ensures Alone(history, signature, |history|)
  {
  }

  lemma {:induction false} SinceCounts(history: seq<Attempt>, signature: string)
    ensures Since(history, signature) == |Counting(history, signature)|
  {
    if history != [] {
      hide Counting;
      var n := |history| - 1;
      assert history == history[..n] + [history[n]];
      SinceCounts(history[..n], signature);
      CountingAppend(history[..n], history[n], signature);
      CountingBelow(history[..n], signature);
    }
  }

  lemma {:induction false} CountingBelow(history: seq<Attempt>, signature: string)
    ensures |history| !in Counting(history, signature)
  {
  }

  /** The attempts that count against the limit on one tool. */
  ghost function Calling(history: seq<Attempt>, tool: string): set<nat> {
    set k: nat | k < |history| && history[k].tool == tool
  }

  lemma {:induction false} CallingAppend(history: seq<Attempt>, a: Attempt, tool: string)
    ensures Calling(history + [a], tool)
         == if a.tool == tool then Calling(history, tool) + {|history|} else Calling(history, tool)
    ensures |history| !in Calling(history, tool)
  {
  }

  lemma {:induction false} OfToolCounts(history: seq<Attempt>, tool: string)
    ensures OfTool(history, tool) == |Calling(history, tool)|
  {
    if history != [] {
      hide Calling;
      var n := |history| - 1;
      assert history == history[..n] + [history[n]];
      OfToolCounts(history[..n], tool);
      CallingAppend(history[..n], history[n], tool);
    }
  }

  // ---------------------------------------------------------------- the guard of a run

  datatype Limits = Limits(maxIdentical: nat, maxPerTool: Option<nat>)

  datatype GuardState = GuardState(
    limits: Limits,
    identical: map<string, nat>,
    perTool: map<string, nat>,
    history: seq<Attempt>)

  /** Counts that refine the history, and a history that respects the limits. */
  type CallGuard = g: GuardState |
    && Refines(g.identical, g.perTool, g.history)
    && Guarded(g.history, g.limits.maxIdentical, g.limits.maxPerTool)
    witness GuardState(Limits(0, None), map[], map[], [])

  /** Counts a call. */
  function Counted(g: CallGuard, signature: string, tool: string): (r: CallGuard)
    ensures r.limits == g.limits && Count(r.identical, signature) == Since(r.history, signature)
    ensures Count(r.perTool, tool) == OfTool(r.history, tool)
    ensures |r.history| == |g.history| + 1 && g.history <= r.history
    ensures var last := r.history[|g.history|];
            last.signature == signature && last.tool == tool && !last.dispatched && !last.succeeded
  {
    var a := Attempt(signature, tool, false, false);
    CountingRefines(g.identical, g.perTool, g.history, a);
    CountingGuarded(g.history, a, g.limits.maxIdentical, g.limits.maxPerTool);
    GuardState(
      g.limits,
      g.identical[signature := Count(g.identical, signature) + 1],
      g.perTool[tool := Count(g.perTool, tool) + 1],
      g.history + [a])
  }

  /** The call counted last may be run. */
  ghost predicate MayRun(g: CallGuard) {
    && g.history != []
    && var last := g.history[|g.history| - 1];
       && !last.succeeded
       && Since(g.history, last.signature) <= g.limits.maxIdentical
       && WithinLimit(OfTool(g.history, last.tool), g.limits.maxPerTool)
  }

  /** The call counted last has run; a success forgets the counts of all other signatures. */
  function Settled(g: CallGuard, succeeded: bool): (r: CallGuard)
    requires MayRun(g)
    ensures r.limits == g.limits && r.perTool == g.perTool
    ensures |r.history| == |g.history| && r.history[..|g.history| - 1] == g.history[..|g.history| - 1]
    ensures var was, last := g.history[|g.history| - 1], r.history[|g.history| - 1];
            && last.signature == was.signature && last.tool == was.tool
            && last.dispatched && last.succeeded == succeeded
            && Count(r.identical, was.signature) == Count(g.identical, was.signature)
            && forall other :: other != was.signature ==>
                 Count(r.identical, other) == if succeeded then 0 else Count(g.identical, other)
  {
    var last := g.history[|g.history| - 1];
    RunRefines(g.identical, g.perTool, g.history, succeeded);
    RunGuarded(g.history, succeeded, g.limits.maxIdentical, g.limits.maxPerTool);
    GuardState(
      g.limits,
      if succeeded then map[last.signature := Count(g.identical, last.signature)] else g.identical,
      g.perTool,
      Run(g.history, succeeded))
  }

  // ---------------------------------------------------------------- what the guard bounds

  /** How often `signature` was run among the attempts `[i, j)`. */
  function Dispatched(history: seq<Attempt>, signature: string, i: nat, j: nat): nat
    requires i <= j <= |history|
    decreases j - i
  {
    if i == j then 0
    else
      Dispatched(history, signature, i, j - 1) +
      (if history[j - 1].signature == signature && history[j - 1].dispatched then 1 else 0)
  }

  /** The attempts among `[i, j)` that ran this signature. */
  ghost function Running(history: seq<Attempt>, signature: string, i: nat, j: nat): set<nat>
    requires i <= j <= |history|
  {
    set k: nat | i <= k < j && history[k].signature == signature && history[k].dispatched
  }

  lemma {:induction false} RunningNext(history: seq<Attempt>, signature: string, i: nat, j: nat)
    requires i <= j < |history|
    ensures Running(history, signature, i, j + 1)
         == if history[j].signature == signature && history[j].dispatched
            then Running(history, signature, i, j) + {j} else Running(history, signature, i, j)
    ensures j !in Running(history, signature, i, j)
  {
  }

  lemma {:induction false} DispatchedCounts(history: seq<Attempt>, signature: string, i: nat, j: nat)
    requires i <= j <= |history|
    ensures Dispatched(history, signature, i, j) == |Running(history, signature, i, j)|
    decreases j - i
  {
    if i < j {
      hide Running;
      DispatchedCounts(history, signature, i, j - 1);
      RunningNext(history, signature, i, j - 1);
    }
  }

  /** In a stretch without a success of another signature. */
  ghost predicate Undisturbed(history: seq<Attempt>, signature: string, i: nat, j: nat)
    requires i <= j <= |history|
  {
    forall k :: i <= k < j && history[k].succeeded ==> history[k].signature == signature
  }

  lemma {:induction false} DispatchedSince(history: seq<Attempt>, signature: string, i: nat, j: nat)
    requires i <= j <= |history| && Undisturbed(history, signature, i, j)
    ensures Dispatched(history, signature, i, j) <= Since(history[..j], signature)
    decreases j - i
  {
    if i < j {
      DispatchedSince(history, signature, i, j - 1);
      assert history[..j][..j - 1] == history[..j - 1];
    }
  }

  lemma {:induction false} GuardedPrefix(
    history: seq<Attempt>, j: nat, maxIdentical: nat, maxPerTool: Option<nat>)
    requires Guarded(history, maxIdentical, maxPerTool) && j <= |history|
    ensures Guarded(history[..j], maxIdentical, maxPerTool)
  {
    if j < |history| {
      var before := history[..|history| - 1];
      GuardedPrefix(before, j, maxIdentical, maxPerTool);
      assert before[..j] == history[..j];
    } else {
      assert history[..j] == history;
    }
  }

  /**
   * In any stretch of the run without a success of a different call, the same call is
   * run at most `maxIdentical` times.
   */
  lemma {:induction false} StretchBound(
    history: seq<Attempt>, signature: string, i: nat, j: nat,
    maxIdentical: nat, maxPerTool: Option<nat>)
    requires Guarded(history, maxIdentical, maxPerTool)
    requires i <= j <= |history| && Undisturbed(history, signature, i, j)
    ensures Dispatched(history, signature, i, j) <= maxIdentical
    decreases j - i
  {
    if i < j {
      if history[j - 1].signature == signature && history[j - 1].dispatched {
        DispatchedSince(history, signature, i, j);
        GuardedPrefix(history, j, maxIdentical, maxPerTool);
      } else {
        StretchBound(history, signature, i, j - 1, maxIdentical, maxPerTool);
      }
    }
  }
}
