/** Steps of one workflow started concurrently: issues and commits in any interleaving. */
module ConcurrentSteps {
  import opened Common
  import opened Workflow

  /**
   * The durable state shared by the steps, and a log of what happened. `called` and `current`
   * belong to the execution that is running; a restart begins the next one.
   */
  datatype Store = Store(
    journal: seq<Entry>,
    inflight: map<string, Kind>,
    called: set<string>,
    current: seq<string>,
    issues: seq<string>,
    rejections: seq<string>)

  const INITIAL := Store([], map[], {}, [], [], [])

  /** A step begins; the effect behind one settles; or the workflow is run again. */
  datatype Event = Begin(kind: Kind, name: string) | Settle(name: string, answer: Reply) | Restart

  /**
   * An execution uses each step name once. It is restarted only when none of its effects
   * is still under way.
   */
  predicate Enabled(s: Store, e: Event) {
    match e
    case Begin(_, name) => name !in s.called
    case Settle(name, _) => name in s.inflight
    case Restart => s.inflight == map[]
  }

  /** What runs between two awaits: the lookup and the issue, or the commit. */
  function Apply(s: Store, e: Event): Store
    requires Enabled(s, e)
  {
    match e
    case Begin(kind, name) =>
      if Find(s.journal, name).Some? then s.(called := s.called + {name})
      else s.(inflight := s.inflight[name := kind],
              called := s.called + {name},
              current := s.current + [name],
              issues := s.issues + [name])
    case Settle(name, answer) =>
      var entry := Recorded(s.inflight[name], name, answer);
      if entry.Some? then s.(inflight := s.inflight - {name}, journal := s.journal + [entry.value])
      else s.(inflight := s.inflight - {name}, rejections := s.rejections + [name])
    case Restart => s.(called := {}, current := [])
  }

  /** The stores some interleaving leads to. */
  ghost predicate Leads(s: Store, events: seq<Event>, t: Store)
    decreases |events|
  {
    if events == [] then s == t
    else Enabled(s, events[0]) && Leads(Apply(s, events[0]), events[1..], t)
  }

  function Occurrences(names: seq<string>, name: string): nat {
    if names == [] then 0
    else Occurrences(names[..|names| - 1], name) + (if names[|names| - 1] == name then 1 else 0)
  }

  lemma {:induction false} OccurrencesAppend(names: seq<string>, last: string, name: string)
    ensures Occurrences(names + [last], name) == Occurrences(names, name) + (if last == name then 1 else 0)
  {
    assert (names + [last])[..|names|] == names;
  }

  function One(b: bool): nat {
    if b then 1 else 0
  }

  /** Every issue of a step was rejected, is under way, or is in the journal. */
  ghost predicate Balanced(s: Store, name: string) {
    Occurrences(s.issues, name)
    == Occurrences(s.rejections, name) + One(name in s.inflight) + One(Find(s.journal, name).Some?)
  }

  /** An execution issues a step at most once, and only a step it has begun. */
  ghost predicate AtMostOnce(s: Store, name: string) {
    Occurrences(s.current, name) <= One(name in s.called)
  }

  /** A step has at most one entry, and none while its effect is under way. */
  ghost predicate OneEntry(s: Store, name: string) {
    && Occurrences(Names(s.journal), name) == One(Find(s.journal, name).Some?)
    && (name in s.inflight ==> Find(s.journal, name).None? && name in s.called)
  }

  ghost predicate Safe(s: Store, name: string) {
    Balanced(s, name) && AtMostOnce(s, name) && OneEntry(s, name)
  }

  lemma {:induction false} FindAfter(journal: seq<Entry>, e: Entry, name: string)
    ensures Find(journal + [e], name).Some? <==> Find(journal, name).Some? || e.step == name
    ensures Find(journal, name).Some? ==> Find(journal + [e], name) == Find(journal, name)
    ensures Occurrences(Names(journal + [e]), name)
         == Occurrences(Names(journal), name) + One(e.step == name)
  {
    if Find(journal, name).Some? {
      FindGrows(journal, journal + [e], name);
    } else {
      FindAppend(journal, e, name);
    }
    assert Names(journal + [e]) == Names(journal) + [e.step];
    OccurrencesAppend(Names(journal), e.step, name);
  }

  lemma {:induction false} BeginKeeps(s: Store, kind: Kind, begun: string, name: string)
    requires Enabled(s, Begin(kind, begun)) && Safe(s, name)
    ensures Safe(Apply(s, Begin(kind, begun)), name)
  {
    hide Find, Names, Occurrences;
    OccurrencesAppend(s.issues, begun, name);
    OccurrencesAppend(s.current, begun, name);
  }

  lemma {:induction false} SettleKeeps(s: Store, settled: string, answer: Reply, name: string)
    requires Enabled(s, Settle(settled, answer)) && Safe(s, name)
    ensures Safe(Apply(s, Settle(settled, answer)), name)
  {
    hide Find, Names, Occurrences, Recorded;
    var entry := Recorded(s.inflight[settled], settled, answer);
    if entry.Some? {
      FindAfter(s.journal, entry.value, name);
    } else {
      OccurrencesAppend(s.rejections, settled, name);
    }
  }

  /** Nothing an execution does changes what the journal says of a step. */
  lemma {:induction false} EntriesStay(s: Store, e: Event, name: string)
    requires Enabled(s, e) && Find(s.journal, name).Some?
    ensures Find(Apply(s, e).journal, name) == Find(s.journal, name)
  {
    if e.Settle? {
      var entry := Recorded(s.inflight[e.name], e.name, e.answer);
      if entry.Some? {
        FindAfter(s.journal, entry.value, name);
      }
    }
  }

  /** In every interleaving, for every step. */
  lemma {:induction false} AlwaysSafe(s: Store, events: seq<Event>, t: Store, name: string)
    requires Leads(s, events, t) && Safe(s, name)
    ensures Safe(t, name)
    ensures Find(s.journal, name).Some? ==> Find(t.journal, name) == Find(s.journal, name)
    decreases |events|
  {
    if events != [] {
      match events[0] {
        case Begin(kind, begun) => BeginKeeps(s, kind, begun, name);
        case Settle(settled, answer) => SettleKeeps(s, settled, answer, name);
        case Restart =>
      }
      if Find(s.journal, name).Some? {
        EntriesStay(s, events[0], name);
      }
      AlwaysSafe(Apply(s, events[0]), events[1..], t, name);
    }
  }

  /** From the start: at most one issue per execution, at most one entry, none of it ever lost. */
  lemma {:induction false} StepsAreSafe(events: seq<Event>, t: Store, name: string)
    requires Leads(INITIAL, events, t)
    ensures Occurrences(t.current, name) <= 1
    ensures Occurrences(Names(t.journal), name) <= 1
    ensures Occurrences(t.issues, name) <= Occurrences(t.rejections, name) + 1
  {
    assert Names([]) == [];
    AlwaysSafe(INITIAL, events, t, name);
  }

  /**
   * Whatever a later execution issues, every earlier issue of that step was rejected. So when
   * all effects settled successfully, a replay issues only steps never issued before.
   */
  lemma {:induction false} ReplayIssuesOnlyNew(events: seq<Event>, t: Store, kind: Kind, name: string)
    requires Leads(INITIAL, events, t) && Enabled(t, Begin(kind, name))
    requires Apply(t, Begin(kind, name)).issues != t.issues
    ensures Occurrences(t.issues, name) == Occurrences(t.rejections, name)
    ensures name !in t.rejections ==> name !in t.issues
  {
    assert Names([]) == [];
    AlwaysSafe(INITIAL, events, t, name);
    AbsentIsZero(t.issues, name);
    AbsentIsZero(t.rejections, name);
  }

  lemma {:induction false} AbsentIsZero(names: seq<string>, name: string)
    ensures Occurrences(names, name) == 0 <==> name !in names
  {
    if names != [] {
      AbsentIsZero(names[..|names| - 1], name);
      assert names == names[..|names| - 1] + [names[|names| - 1]];
    }
  }

  // ---------------------------------------------------------------- against a step on its own

  /**
   * A step begun and settled with nothing in between does what a step of one execution does: it
   * replays from the journal, or issues its effect once and keeps what a kept answer leaves.
   */
  lemma {:induction false} StepIsPerform(s: Store, kind: Kind, name: string, input: string, effects: Effects)
    requires name !in s.called && name !in s.inflight
    ensures var p := Perform(kind, name, input, effects, |s.journal| + 1, None, s.journal);
            var events := if p.calls == [] then [Begin(kind, name)]
                          else [Begin(kind, name), Settle(name, effects(kind, name, input))];
            exists t ::
              && Leads(s, events, t)
              && t.journal == p.journal && t.inflight == s.inflight && t.called == s.called + {name}
              && t.issues == s.issues + (if p.calls == [] then [] else [name])
              && t.rejections == s.rejections
                   + (if p.calls == [] || p.calls[0].committed then [] else [name])
  {
    hide Find, Recorded;
    var t := Apply(s, Begin(kind, name));
    if Find(s.journal, name).Some? {
      assert [Begin(kind, name)][1..] == [];
      assert Leads(t, [], t);
    } else {
      var answer := effects(kind, name, input);
      var u := Apply(t, Settle(name, answer));
      var events := [Begin(kind, name), Settle(name, answer)];
      assert events[1..][1..] == [];
      assert t.inflight - {name} == s.inflight;
      assert Leads(u, [], u) && Leads(t, events[1..], u);
    }
  }

  /** An effect under way settles as itself, however late: no other event ends or replaces it. */
  lemma {:induction false} UnderWayStays(s: Store, e: Event, name: string)
    requires name in s.inflight && name in s.called && Enabled(s, e) && !(e.Settle? && e.name == name)
    ensures name in Apply(s, e).inflight && Apply(s, e).inflight[name] == s.inflight[name]
    ensures forall answer :: Enabled(Apply(s, e), Settle(name, answer))
  {
  }

  /** An effect that settles with a result, a failed task or a timeout is journaled, not rejected. */
  lemma {:induction false} LastingSettles(s: Store, name: string, answer: Reply)
    requires name in s.inflight && Find(s.journal, name).None? && Lasting(s.inflight[name], answer)
    ensures var t := Apply(s, Settle(name, answer));
            t.rejections == s.rejections && |t.journal| == |s.journal| + 1 && Find(t.journal, name).Some?
  {
    FindAfter(s.journal, Recorded(s.inflight[name], name, answer).value, name);
  }

  /** Once nothing is under way the workflow may be run again, any step of it, on the same journal. */
  lemma {:induction false} RestartsAnew(s: Store, kind: Kind, name: string)
    requires s.inflight == map[]
    ensures exists t ::
              && Leads(s, [Restart], t) && Enabled(t, Begin(kind, name))
              && t.journal == s.journal && t.issues == s.issues && t.current == [] && t.inflight == map[]
  {
    var t := Apply(s, Restart);
    assert [Restart][1..] == [];
    assert Leads(t, [], t) && Leads(s, [Restart], t);
  }
}
