/** Appending to a shared list by compare-and-swap, from any number of appenders at once. */
module Blackboard {
  import opened Common

  // ---------------------------------------------------------------- the key-value store

  /** A stored value: a JSON array, any other JSON value, or bytes that do not decode. */
  datatype Value = List(items: seq<string>) | Scalar | Corrupt

  /** One key: never written, deleted with a marker left behind, or live. */
  datatype Cell = Absent | Tombstone(revision: nat) | Live(value: Value, revision: nat)

  /** What the client's `read` makes of a cell: a corrupt value looks absent. */
  datatype Reading = Nothing | NotAList | Entry(items: seq<string>, revision: nat)

  function Read(c: Cell): Reading {
    match c
    case Live(List(items), revision) => Entry(items, revision)
    case Live(Scalar, _) => NotAList
    case _ => Nothing
  }

  /** Whether `create` is accepted: only a live key is in its way, readable or not. */
  predicate Creatable(c: Cell) {
    !c.Live?
  }

  /** Whether `update` against a revision is accepted. */
  predicate Updatable(c: Cell, revision: nat) {
    !c.Absent? && c.revision == revision
  }

  // ---------------------------------------------------------------- appenders

  /**
   * Where one append stands: `attempt` rounds begun, `mark` other successes before its read.
   */
  datatype Phase =
    | Ready(attempt: nat)
    | Holding(attempt: nat, reading: Reading, mark: nat)
    | Done(revision: nat, length: nat)
    | GaveUp
    | NotArray
    | Broken

  /** The key, the bucket's last revision, all appenders, and who succeeded, in order. */
  datatype System = System(cell: Cell, last: nat, phases: seq<Phase>, log: seq<nat>)

  datatype Event = Look(i: nat) | Swap(i: nat) | Stop(i: nat) | Fail(i: nat) | Elsewhere

  predicate Enabled(s: System, maxRetries: nat, e: Event) {
    match e
    case Look(i) => i < |s.phases| && s.phases[i].Ready? && s.phases[i].attempt <= maxRetries
    case Stop(i) => i < |s.phases| && s.phases[i].Ready? && s.phases[i].attempt > maxRetries
    case Swap(i) => i < |s.phases| && s.phases[i].Holding?
    case Fail(i) => i < |s.phases| && (s.phases[i].Ready? || s.phases[i].Holding?)
    case Elsewhere => true
  }

  /** The outcome of a swap: accepted with the list it stored, or refused. */
  function Proposal(c: Cell, reading: Reading, item: string): Option<seq<string>> {
    match reading
    case Nothing => if Creatable(c) then Some([item]) else None
    case Entry(items, revision) => if Updatable(c, revision) then Some(items + [item]) else None
    case NotAList => None
  }

  function Apply(s: System, maxRetries: nat, items: seq<string>, e: Event): System
    requires Enabled(s, maxRetries, e) && |items| == |s.phases|
  {
    match e
    case Look(i) =>
      var reading := Read(s.cell);
      var next := if reading.NotAList? then NotArray
                  else Holding(s.phases[i].attempt + 1, reading, |s.log|);
      s.(phases := s.phases[i := next])
    case Swap(i) =>
      var stored := Proposal(s.cell, s.phases[i].reading, items[i]);
      if stored.None? then s.(phases := s.phases[i := Ready(s.phases[i].attempt)])
      else System(Live(List(stored.value), s.last + 1), s.last + 1,
                  s.phases[i := Done(s.last + 1, |stored.value|)], s.log + [i])
    case Stop(i) => s.(phases := s.phases[i := GaveUp])
    case Fail(i) => s.(phases := s.phases[i := Broken])
    case Elsewhere => s.(last := s.last + 1)
  }

  ghost predicate Leads(s: System, maxRetries: nat, items: seq<string>, events: seq<Event>, t: System)
    requires |items| == |s.phases|
    decreases |events|
  {
    if events == [] then s == t
    else
      && Enabled(s, maxRetries, events[0])
      && Leads(Apply(s, maxRetries, items, events[0]), maxRetries, items, events[1..], t)
  }

  /** `n` appends about to begin. */
  function Start(cell: Cell, last: nat, n: nat): System {
    System(cell, last, seq(n, i => Ready(0)), [])
  }

  /** A client error ends one append for good, and is all that happens to it. */
  lemma {:induction false} FailureIsFinal(s: System, maxRetries: nat, items: seq<string>, i: nat, e: Event)
    requires i < |s.phases| == |items| && (s.phases[i].Ready? || s.phases[i].Holding?)
    ensures Enabled(s, maxRetries, Fail(i))
    ensures var t := Apply(s, maxRetries, items, Fail(i));
            && t.phases[i].Broken? && t.cell == s.cell && t.log == s.log
            && (forall j :: 0 <= j < |s.phases| && j != i ==> t.phases[j] == s.phases[j])
            && (Enabled(t, maxRetries, e) ==> Apply(t, maxRetries, items, e).phases[i].Broken?)
  {
  }

  /** Writes to other keys take revisions of the bucket, as many as they like, and nothing else. */
  lemma {:induction false} RevisionsElsewhere(s: System, maxRetries: nat, items: seq<string>, n: nat)
    requires |items| == |s.phases|
    ensures Leads(s, maxRetries, items, seq(n, i => Elsewhere), s.(last := s.last + n))
    decreases n
  {
    var events := seq(n, i => Elsewhere);
    if n > 0 {
      assert events[1..] == seq(n - 1, i => Elsewhere);
      RevisionsElsewhere(s.(last := s.last + 1), maxRetries, items, n - 1);
    }
  }

  // ---------------------------------------------------------------- linearization

  /** The list in a cell that can be appended to. */
  function Contents(c: Cell): seq<string> {
    if c.Live? && c.value.List? then c.value.items else []
  }

  /** The items of the appends in a log. */
  function Picked(items: seq<string>, log: seq<nat>): seq<string> {
    if log == [] then []
    else
      var i := log[|log| - 1];
      Picked(items, log[..|log| - 1]) + (if i < |items| then [items[i]] else [])
  }

  lemma {:induction false} PickedAppend(items: seq<string>, log: seq<nat>, i: nat)
    requires i < |items|
    ensures Picked(items, log + [i]) == Picked(items, log) + [items[i]]
  {
    assert (log + [i])[..|log|] == log;
  }

  lemma {:induction false} PickedMeans(items: seq<string>, log: seq<nat>)
    requires forall k :: 0 <= k < |log| ==> log[k] < |items|
    ensures |Picked(items, log)| == |log|
    ensures forall k :: 0 <= k < |log| ==> Picked(items, log)[k] == items[log[k]]
  {
    if log != [] {
      PickedMeans(items, log[..|log| - 1]);
    }
  }

  /** A value an append never replaces. */
  predicate Stuck(c: Cell) {
    c.Live? && !c.value.List?
  }

  /** The stored list is the first one, then the items of the successful appends in their order. */
  ghost predicate Linear(first: Cell, s: System, items: seq<string>) {
    if Stuck(first) then s.cell == first && s.log == []
    else !Stuck(s.cell) && Contents(s.cell) == Contents(first) + Picked(items, s.log)
  }

  /** `i` succeeded as number `k` of the log exactly if it was told the length at that point. */
  ghost predicate Told(first: Cell, s: System, i: nat)
    requires i < |s.phases|
  {
    && (s.phases[i].Done? ==>
          && 0 <= s.phases[i].length - |Contents(first)| - 1 < |s.log|
          && s.log[s.phases[i].length - |Contents(first)| - 1] == i)
    && (forall k :: 0 <= k < |s.log| && s.log[k] == i ==>
          s.phases[i].Done? && k == s.phases[i].length - |Contents(first)| - 1)
  }

  /** Revisions only grow, so a revision identifies the value that was read under it. */
  ghost predicate Current(s: System, i: nat)
    requires i < |s.phases|
  {
    && (s.cell.Absent? || s.cell.revision <= s.last)
    && (s.phases[i].Holding? ==> !s.phases[i].reading.NotAList?)
    && (s.phases[i].Holding? && s.phases[i].reading.Entry? ==>
          && s.phases[i].reading.revision <= s.last
          && (Updatable(s.cell, s.phases[i].reading.revision) ==> Read(s.cell) == s.phases[i].reading))
  }

  ghost predicate Sound(first: Cell, s: System, items: seq<string>) {
    && |items| == |s.phases| && Linear(first, s, items)
    && (forall k :: 0 <= k < |s.log| ==> s.log[k] < |items|)
    && (forall i :: 0 <= i < |s.phases| ==> Told(first, s, i) && Current(s, i))
  }

  /** An accepted swap stores the current list with one item more. */
  lemma {:induction false} SwapAppends(first: Cell, s: System, items: seq<string>, i: nat)
    requires Sound(first, s, items) && i < |s.phases| && s.phases[i].Holding?
    ensures var stored := Proposal(s.cell, s.phases[i].reading, items[i]);
            stored.Some? ==> !Stuck(first) && stored.value == Contents(s.cell) + [items[i]]
  {
    assert Current(s, i);
  }

  lemma {:induction false} LengthNow(first: Cell, s: System, items: seq<string>)
    requires Sound(first, s, items) && !Stuck(first)
    ensures |Contents(s.cell)| == |Contents(first)| + |s.log|
  {
    PickedMeans(items, s.log);
  }

  lemma {:induction false} SuccessKeepsTold(first: Cell, s: System, t: System, i: nat, revision: nat, j: nat)
    requires i < |s.phases| && j < |s.phases| && Told(first, s, j) && Told(first, s, i)
    requires !s.phases[i].Done? && t.log == s.log + [i]
    requires t.phases == s.phases[i := Done(revision, |Contents(first)| + |s.log| + 1)]
    ensures Told(first, t, j)
  {
  }

  lemma {:induction false} StepKeepsTold(
    first: Cell, s: System, maxRetries: nat, items: seq<string>, e: Event, j: nat)
    requires Sound(first, s, items) && Enabled(s, maxRetries, e) && j < |s.phases|
    ensures Told(first, Apply(s, maxRetries, items, e), j)
  {
    hide Linear, Picked, Current;
    var t := Apply(s, maxRetries, items, e);
    assert Told(first, s, j);
    if e.Swap? && t.log != s.log {
      assert Told(first, s, e.i);
      SwapAppends(first, s, items, e.i);
      LengthNow(first, s, items);
      SuccessKeepsTold(first, s, t, e.i, s.last + 1, j);
    }
  }

  lemma {:induction false} StepKeepsCurrent(
    first: Cell, s: System, maxRetries: nat, items: seq<string>, e: Event, j: nat)
    requires Sound(first, s, items) && Enabled(s, maxRetries, e) && j < |s.phases|
    ensures Current(Apply(s, maxRetries, items, e), j)
  {
    assert Current(s, j);
  }

  lemma {:induction false} StepKeepsLinear(
    first: Cell, s: System, maxRetries: nat, items: seq<string>, e: Event)
    requires Sound(first, s, items) && Enabled(s, maxRetries, e)
    ensures Linear(first, Apply(s, maxRetries, items, e), items)
  {
    if e.Swap? {
      SwapAppends(first, s, items, e.i);
      PickedAppend(items, s.log, e.i);
      AppendAssociates(Contents(first), Picked(items, s.log), [items[e.i]]);
    }
  }

  lemma {:induction false} StepKeepsSound(
    first: Cell, s: System, maxRetries: nat, items: seq<string>, e: Event)
    requires Sound(first, s, items) && Enabled(s, maxRetries, e)
    ensures Sound(first, Apply(s, maxRetries, items, e), items)
  {
    var t := Apply(s, maxRetries, items, e);
    StepKeepsLinear(first, s, maxRetries, items, e);
    forall j | 0 <= j < |t.phases|
      ensures Told(first, t, j) && Current(t, j)
    {
      StepKeepsTold(first, s, maxRetries, items, e, j);
      StepKeepsCurrent(first, s, maxRetries, items, e, j);
    }
  }

  lemma {:induction false} RunKeepsSound(
    first: Cell, s: System, maxRetries: nat, items: seq<string>, events: seq<Event>, t: System)
    requires Sound(first, s, items) && Leads(s, maxRetries, items, events, t)
    ensures Sound(first, t, items)
    decreases |events|
  {
    if events != [] {
      StepKeepsSound(first, s, maxRetries, items, events[0]);
      RunKeepsSound(first, Apply(s, maxRetries, items, events[0]), maxRetries, items, events[1..], t);
    }
  }

  /**
   * Any number of appenders, any interleaving: the stored list is the first list, then the
   * items of the successful appends in success order; an append that failed left nothing; a
   * success was told the length the list had then.
   */
  lemma {:induction false} AppendsLinearize(
    first: Cell, last: nat, maxRetries: nat, items: seq<string>, events: seq<Event>, t: System)
    requires first.Absent? || first.revision <= last
    requires Leads(Start(first, last, |items|), maxRetries, items, events, t)
    ensures Linear(first, t, items) && |t.phases| == |items|
    ensures forall i :: 0 <= i < |items| ==> (t.phases[i].Done? <==> i in t.log)
    ensures forall k :: 0 <= k < |t.log| ==>
              t.log[k] < |items| && t.phases[t.log[k]].Done?
              && t.phases[t.log[k]].length == |Contents(first)| + k + 1
  {
    var s := Start(first, last, |items|);
    assert Contents(first) + [] == Contents(first);
    assert Sound(first, s, items);
    RunKeepsSound(first, s, maxRetries, items, events, t);
    forall k | 0 <= k < |t.log|
      ensures t.log[k] < |items| && t.phases[t.log[k]].Done?
      ensures t.phases[t.log[k]].length == |Contents(first)| + k + 1
    {
      assert Told(first, t, t.log[k]);
    }
    forall i | 0 <= i < |items|
      ensures t.phases[i].Done? <==> i in t.log
    {
      assert Told(first, t, i);
    }
  }

  // ---------------------------------------------------------------- bounded progress

  /**
   * Each conflict an appender has met is charged to a different success of another: it has
   * begun at most one round more than there have been successes, and a swap is refused only
   * if one came in since the read.
   */
  ghost predicate Charged(s: System, maxRetries: nat, i: nat)
    requires i < |s.phases|
  {
    match s.phases[i]
    case Ready(attempt) => attempt <= |s.log|
    case Holding(attempt, reading, mark) =>
      && 0 < attempt <= mark + 1 && mark <= |s.log|
      && (mark == |s.log| ==> forall item :: Proposal(s.cell, reading, item).Some?)
    case GaveUp => |s.log| > maxRetries
    case _ => true
  }

  lemma {:induction false} StepKeepsCharged(
    first: Cell, s: System, maxRetries: nat, items: seq<string>, e: Event, j: nat)
    requires Sound(first, s, items) && Enabled(s, maxRetries, e) && !Stuck(first)
    requires j < |s.phases| && Charged(s, maxRetries, j)
    ensures Charged(Apply(s, maxRetries, items, e), maxRetries, j)
  {
    assert Current(s, j);
  }

  lemma {:induction false} RunKeepsCharged(
    first: Cell, s: System, maxRetries: nat, items: seq<string>, events: seq<Event>, t: System, j: nat)
    requires Sound(first, s, items) && Leads(s, maxRetries, items, events, t) && !Stuck(first)
    requires j < |s.phases| && Charged(s, maxRetries, j)
    ensures j < |t.phases| && Charged(t, maxRetries, j)
    decreases |events|
  {
    if events != [] {
      StepKeepsSound(first, s, maxRetries, items, events[0]);
      StepKeepsCharged(first, s, maxRetries, items, events[0], j);
      RunKeepsCharged(first, Apply(s, maxRetries, items, events[0]), maxRetries, items, events[1..], t, j);
    }
  }

  /** A list of different members of a set is no longer than the set is large. */
  lemma {:induction false} DifferentMembers(log: seq<nat>, members: set<nat>)
    requires forall k :: 0 <= k < |log| ==> log[k] in members
    requires forall j, k :: 0 <= j < k < |log| ==> log[j] != log[k]
    ensures |log| <= |members|
  {
    if log != [] {
      DifferentMembers(log[..|log| - 1], members - {log[|log| - 1]});
    }
  }

  function UpTo(n: nat): (below: set<nat>)
    ensures |below| == n && forall k :: k in below <==> 0 <= k < n
  {
    if n == 0 then {} else UpTo(n - 1) + {n - 1}
  }

  /** One append that gave up, and the successes it lost against. */
  lemma {:induction false} GivingUpTakesMany(first: Cell, t: System, maxRetries: nat, items: seq<string>, i: nat)
    requires Sound(first, t, items) && i < |t.phases|
    requires t.phases[i].GaveUp? && Charged(t, maxRetries, i)
    ensures |items| > maxRetries + 1
  {
    assert Told(first, t, i);
    assert i !in t.log;
    forall j, k | 0 <= j < k < |t.log|
      ensures t.log[j] != t.log[k]
    {
      assert Told(first, t, t.log[j]);
    }
    DifferentMembers(t.log, UpTo(|items|) - {i});
  }

  /** At most `maxRetries + 1` appenders on a list nobody else writes: none of them gives up. */
  lemma {:induction false} NobodyGivesUp(
    first: Cell, last: nat, maxRetries: nat, items: seq<string>, events: seq<Event>, t: System)
    requires (first.Absent? || first.revision <= last) && !Stuck(first)
    requires |items| <= maxRetries + 1
    requires Leads(Start(first, last, |items|), maxRetries, items, events, t)
    ensures |t.phases| == |items|
    ensures forall i :: 0 <= i < |items| ==> !t.phases[i].GaveUp?
  {
    var s := Start(first, last, |items|);
    assert Contents(first) + [] == Contents(first);
    assert Sound(first, s, items);
    RunKeepsSound(first, s, maxRetries, items, events, t);
    forall i | 0 <= i < |items|
      ensures !t.phases[i].GaveUp?
    {
      RunKeepsCharged(first, s, maxRetries, items, events, t, i);
      if t.phases[i].GaveUp? {
        GivingUpTakesMany(first, t, maxRetries, items, i);
      }
    }
  }

  /** Appender 0 reads, appender `k` overtakes it, and appender 0 is refused. */
  lemma {:induction false} Overtaken(s: System, maxRetries: nat, items: seq<string>, k: nat) returns (t: System)
    requires |items| == |s.phases| && 0 < k < |items| && !Stuck(s.cell)
    requires s.cell.Absent? || s.cell.revision <= s.last
    requires s.phases[0].Ready? && s.phases[0].attempt <= maxRetries && s.phases[k] == Ready(0)
    ensures Leads(s, maxRetries, items, [Look(0), Look(k), Swap(k), Swap(0)], t)
    ensures t.phases == s.phases[0 := Ready(s.phases[0].attempt + 1)][k := Done(t.last, |Contents(s.cell)| + 1)]
    ensures !Stuck(t.cell) && t.cell.Live? && t.cell.revision <= t.last
  {
    var events := [Look(0), Look(k), Swap(k), Swap(0)];
    var s1 := Apply(s, maxRetries, items, events[0]);
    var s2 := Apply(s1, maxRetries, items, events[1]);
    var s3 := Apply(s2, maxRetries, items, events[2]);
    t := Apply(s3, maxRetries, items, events[3]);
    assert s3.cell.Live? && s3.log == s.log + [k];
    assert events[1..] == [Look(k), Swap(k), Swap(0)];
    assert events[1..][1..] == [Swap(k), Swap(0)];
    assert events[1..][1..][1..] == [Swap(0)];
    assert events[1..][1..][1..][1..] == [];
    assert Leads(s3, maxRetries, items, [Swap(0)], t);
    assert Leads(s2, maxRetries, items, [Swap(k), Swap(0)], t);
  }

  lemma {:induction false} LeadsConcat(
    s: System, maxRetries: nat, items: seq<string>, first: seq<Event>, m: System,
    second: seq<Event>, t: System)
    requires |items| == |s.phases| && Leads(s, maxRetries, items, first, m)
    requires |items| == |m.phases| && Leads(m, maxRetries, items, second, t)
    ensures Leads(s, maxRetries, items, first + second, t)
    decreases |first|
  {
    if first == [] {
      assert first + second == second;
    } else {
      assert (first + second)[1..] == first[1..] + second;
      LeadsConcat(Apply(s, maxRetries, items, first[0]), maxRetries, items, first[1..], m, second, t);
    }
  }

  /** Overtaken once by each of the others, appender 0 runs out of rounds. */
  lemma {:induction false} Starved(s: System, maxRetries: nat, items: seq<string>, k: nat)
    returns (events: seq<Event>, t: System)
    requires |items| == |s.phases| && maxRetries + 2 <= |items| && 0 < k <= maxRetries + 2
    requires !Stuck(s.cell) && (s.cell.Absent? || s.cell.revision <= s.last)
    requires s.phases[0] == Ready(k - 1)
    requires forall j :: k <= j < |items| ==> s.phases[j] == Ready(0)
    ensures Leads(s, maxRetries, items, events, t) && |t.phases| == |items| && t.phases[0].GaveUp?
    decreases maxRetries + 2 - k
  {
    if k == maxRetries + 2 {
      events, t := [Stop(0)], Apply(s, maxRetries, items, Stop(0));
      assert events[1..] == [];
    } else {
      var m := Overtaken(s, maxRetries, items, k);
      var rest;
      rest, t := Starved(m, maxRetries, items, k + 1);
      events := [Look(0), Look(k), Swap(k), Swap(0)] + rest;
      LeadsConcat(s, maxRetries, items, [Look(0), Look(k), Swap(k), Swap(0)], m, rest, t);
    }
  }

  /** Some interleaving makes an append give up. */
  ghost predicate CanGiveUp(first: Cell, last: nat, maxRetries: nat, items: seq<string>) {
    exists events, t, i ::
      && Leads(Start(first, last, |items|), maxRetries, items, events, t)
      && 0 <= i < |t.phases| && t.phases[i].GaveUp?
  }

  /** On a list nobody else writes, giving up takes exactly more than `maxRetries + 1` appenders. */
  lemma {:induction false} GivesUpExactly(first: Cell, last: nat, maxRetries: nat, items: seq<string>)
    requires (first.Absent? || first.revision <= last) && !Stuck(first)
    ensures CanGiveUp(first, last, maxRetries, items) <==> |items| > maxRetries + 1
  {
    if |items| > maxRetries + 1 {
      var events, t := Starved(Start(first, last, |items|), maxRetries, items, 1);
      assert t.phases[0].GaveUp?;
    } else if CanGiveUp(first, last, maxRetries, items) {
      var events, t, i :| Leads(Start(first, last, |items|), maxRetries, items, events, t)
                          && 0 <= i < |t.phases| && t.phases[i].GaveUp?;
      NobodyGivesUp(first, last, maxRetries, items, events, t);
    }
  }

  /** Bytes that do not decode block the key for good: not one append ever succeeds. */
  lemma {:induction false} CorruptBlocks(
    first: Cell, last: nat, maxRetries: nat, items: seq<string>, events: seq<Event>, t: System)
    requires Stuck(first) && first.revision <= last
    requires Leads(Start(first, last, |items|), maxRetries, items, events, t)
    ensures t.cell == first && forall i :: 0 <= i < |t.phases| ==> !t.phases[i].Done?
  {
    AppendsLinearize(first, last, maxRetries, items, events, t);
  }

  /** Some interleaving lets an append succeed. */
  ghost predicate CanAppend(first: Cell, last: nat, maxRetries: nat, items: seq<string>) {
    exists events, t, i ::
      && Leads(Start(first, last, |items|), maxRetries, items, events, t)
      && 0 <= i < |t.phases| && t.phases[i].Done?
  }

  /** With anyone to append, appending is possible exactly on a key that holds a list or nothing. */
  lemma {:induction false} AppendsExactly(first: Cell, last: nat, maxRetries: nat, items: seq<string>)
    requires first.Absent? || first.revision <= last
    ensures CanAppend(first, last, maxRetries, items) <==> !Stuck(first) && items != []
  {
    var s := Start(first, last, |items|);
    if Stuck(first) || items == [] {
      forall events, t | Leads(s, maxRetries, items, events, t)
        ensures forall i :: 0 <= i < |t.phases| ==> !t.phases[i].Done?
      {
        AppendsLinearize(first, last, maxRetries, items, events, t);
      }
    } else {
      var s1 := Apply(s, maxRetries, items, Look(0));
      var t := Apply(s1, maxRetries, items, Swap(0));
      var events := [Look(0), Swap(0)];
      assert events[1..] == [Swap(0)] && [Swap(0)][1..] == [];
      assert Leads(s1, maxRetries, items, [Swap(0)], t);
      assert Leads(s, maxRetries, items, events, t) && t.phases[0].Done?;
    }
  }

  // ---------------------------------------------------------------- the append handler

  datatype Result = Appended(revision: nat, length: nat) | NotAnArray | Contended

  /** The bucket seen through the client, while others write to it too. */
  class Store {
    var cell: Cell
    var last: nat
    ghost var past: seq<Cell>
    ghost var own: nat
    ghost var foreign: nat

    /** Revisions never run ahead of the bucket. */
    ghost predicate Valid()
      reads this
    {
      cell.Absent? || cell.revision <= last
    }

    constructor (cell: Cell, last: nat)
      requires cell.Absent? || cell.revision <= last
      ensures Valid() && this.cell == cell && this.last == last && past == []
      ensures own == 0 && foreign == 0
    {
      this.cell, this.last, past, own, foreign := cell, last, [], 0, 0;
    }

    /** Seeds the key; refused when it is live. */
    method Create(items: seq<string>) returns (revision: Option<nat>)
      requires Valid()
      modifies this
      ensures Valid() && foreign == old(foreign)
      ensures revision.Some? <==> Creatable(old(cell))
      ensures revision.Some? ==>
                && cell == Live(List(items), revision.value) && revision.value > old(last)
                && own == old(own) + 1 && past == old(past) + [old(cell)]
      ensures revision.None? ==>
                cell == old(cell) && last == old(last) && own == old(own) && past == old(past)
    {
      if !Creatable(cell) {
        return None;
      }
      past, last, own := past + [cell], last + 1, own + 1;
      cell := Live(List(items), last);
      revision := Some(last);
    }

    /** Replaces the value read under a revision; refused when it has changed since. */
    method Update(items: seq<string>, expected: nat) returns (revision: Option<nat>)
      requires Valid()
      modifies this
      ensures Valid() && foreign == old(foreign)
      ensures revision.Some? <==> Updatable(old(cell), expected)
      ensures revision.Some? ==>
                && cell == Live(List(items), revision.value) && revision.value > old(last)
                && own == old(own) + 1 && past == old(past) + [old(cell)]
      ensures revision.None? ==>
                cell == old(cell) && last == old(last) && own == old(own) && past == old(past)
    {
      if !Updatable(cell, expected) {
        return None;
      }
      past, last, own := past + [cell], last + 1, own + 1;
      cell := Live(List(items), last);
      revision := Some(last);
    }

    /** What others write in the meantime; `past` keeps every cell there has been. */
    method Others(values: seq<Value>)
      requires Valid()
      modifies this
      ensures Valid() && own == old(own) && foreign == old(foreign) + |values|
      ensures values == [] ==> cell == old(cell)
      ensures values != [] ==> cell == Live(values[|values| - 1], last) && last > old(last)
      ensures last == old(last) + |values| && |past| == |old(past)| + |values|
      ensures old(past) <= past && (values != [] ==> past[|old(past)|] == old(cell))
    {
      var k := 0;
      while k < |values|
        invariant 0 <= k <= |values| && Valid() && own == old(own)
        invariant foreign == old(foreign) + k && last == old(last) + k && |past| == |old(past)| + k
        invariant old(past) <= past && (k > 0 ==> past[|old(past)|] == old(cell))
        invariant k == 0 ==> cell == old(cell)
        invariant k > 0 ==> cell == Live(values[k - 1], last)
      {
        past, last, foreign := past + [cell], last + 1, foreign + 1;
        cell := Live(values[k], last);
        k := k + 1;
      }
    }
  }

  ghost predicate Unreadable(c: Cell) {
    c.Live? && c.value.Corrupt?
  }

  /** No unreadable cell from `from` on. */
  ghost predicate Readable(past: seq<Cell>, from: nat, cell: Cell) {
    !Unreadable(cell) && forall k :: from <= k < |past| ==> !Unreadable(past[k])
  }

  /**
   * Reads, appends and swaps until accepted, at most `maxRetries + 1` times; others write
   * `gaps(t)` between its read and its swap of round `t`. An accepted append replaces a cell
   * by the same list with the item at its end; a failed one writes nothing. It is contended
   * only if others wrote in every round, or a value could not be read.
   */
  method Append(store: Store, item: string, maxRetries: nat, gaps: nat -> seq<Value>)
    returns (result: Result)
    requires store.Valid()
    modifies store
    ensures store.Valid()
    ensures result.Appended? ==>
              && store.own == old(store.own) + 1
              && store.past != [] && !Stuck(store.past[|store.past| - 1])
              && store.cell == Live(List(Contents(store.past[|store.past| - 1]) + [item]), result.revision)
              && result.length == |Contents(store.cell)|
    ensures !result.Appended? ==> store.own == old(store.own)
    ensures result.NotAnArray? ==> store.cell.Live? && store.cell.value.Scalar?
    ensures result.Contended? && Readable(store.past, |old(store.past)|, store.cell) ==>
              store.foreign >= old(store.foreign) + maxRetries + 1
  {
    var attempt := 0;
    while attempt <= maxRetries
      invariant 0 <= attempt <= maxRetries + 1 && store.Valid()
      invariant store.own == old(store.own) && old(store.past) <= store.past
      invariant Readable(store.past, |old(store.past)|, store.cell) ==>
                  store.foreign >= old(store.foreign) + attempt
    {
      attempt := attempt + 1;
      ghost var seen := store.cell;
      var entry := Read(store.cell);
      if entry.NotAList? {
        return NotAnArray;
      }
      store.Others(gaps(attempt));
      assert Readable(store.past, |old(store.past)|, store.cell) ==> !Unreadable(seen);
      if entry.Nothing? {
        var revision := store.Create([item]);
        if revision.Some? {
          assert [] + [item] == [item];
          return Appended(revision.value, 1);
        }
      } else {
        var revision := store.Update(entry.items + [item], entry.revision);
        if revision.Some? {
          return Appended(revision.value, |entry.items| + 1);
        }
      }
    }
    result := Contended;
  }
}
