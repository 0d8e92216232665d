/** The guarded status write: JSON Patch with a precondition, against concurrent writers. */
module Status {
  import opened Common

  // ---------------------------------------------------------------- the status document

  /** The fields below `/status`, as JSON. */
  type Doc = map<string, string>

  datatype Op = Test(path: string, value: string) | Add(path: string, value: string)

  /** One operation; a `test` fails unless the value is there (section 4.6 of RFC 6902). */
  function ApplyOp(doc: Doc, op: Op): Option<Doc> {
    match op
    case Test(path, value) => if path in doc && doc[path] == value then Some(doc) else None
    case Add(path, value) => Some(doc[path := value])
  }

  /** All operations in order, or none of them (section 5 of RFC 6902). */
  function ApplyOps(doc: Doc, ops: seq<Op>): Option<Doc>
    decreases |ops|
  {
    if ops == [] then Some(doc)
    else
      match ApplyOp(doc, ops[0])
      case None => None
      case Some(next) => ApplyOps(next, ops[1..])
  }

  const PHASE := "phase"
  const COMPLETED := "Completed"
  const FAILED := "Failed"
  const PHASES_TO_TRY := ["Dispatched", "Pending"]

  predicate IsTerminal(phase: string) {
    phase == COMPLETED || phase == FAILED
  }

  predicate Terminal(doc: Doc) {
    PHASE in doc && IsTerminal(doc[PHASE])
  }

  // ---------------------------------------------------------------- the patch of a run

  /** What a finished run asks to be written. */
  datatype Patch = Patch(
    phase: string,
    completedAt: string,
    result: Option<string>,
    error: Option<string>,
    verdict: Option<string>,
    artifacts: Option<string>)

  type StatusPatch = p: Patch | IsTerminal(p.phase)
    witness Patch("Failed", "", None, None, None, None)

  function Optional(path: string, value: Option<string>): seq<Op> {
    if value.Some? then [Add(path, value.value)] else []
  }

  /** The guard on the phase, and the two fields every patch has. */
  function GuardOps(p: StatusPatch, expected: string): seq<Op> {
    [Test(PHASE, expected), Add(PHASE, p.phase), Add("completedAt", p.completedAt)]
  }

  /** The guard, then one `add` for each field the patch has. */
  function PatchOps(p: StatusPatch, expected: string): seq<Op> {
    GuardOps(p, expected) + Optional("result", p.result) + Optional("error", p.error)
    + Optional("structuralVerdict", p.verdict) + Optional("artifacts", p.artifacts)
  }

  /** `ops.push` of an optional field. */
  method PushOptional(ops: seq<Op>, path: string, value: Option<string>) returns (longer: seq<Op>)
    ensures longer == ops + Optional(path, value)
  {
    longer := ops;
    if value.Some? {
      longer := longer + [Add(path, value.value)];
    } else {
      assert ops + [] == ops;
    }
  }

  /** `buildJsonPatchOps`. */
  method BuildOps(p: StatusPatch, expected: string) returns (ops: seq<Op>)
    ensures ops == PatchOps(p, expected)
  {
    ops := GuardOps(p, expected);
    ops := PushOptional(ops, "result", p.result);
    ops := PushOptional(ops, "error", p.error);
    ops := PushOptional(ops, "structuralVerdict", p.verdict);
    ops := PushOptional(ops, "artifacts", p.artifacts);
  }

  function Set(doc: Doc, path: string, value: Option<string>): Doc {
    if value.Some? then doc[path := value.value] else doc
  }

  /** The document with the fields of a patch, and every other field as it was. */
  function Overlay(doc: Doc, p: StatusPatch): Doc {
    Set(Set(Set(Set(doc[PHASE := p.phase]["completedAt" := p.completedAt],
                    "result", p.result), "error", p.error),
            "structuralVerdict", p.verdict), "artifacts", p.artifacts)
  }

  lemma {:induction false} OpsConcat(doc: Doc, a: seq<Op>, b: seq<Op>)
    ensures ApplyOps(doc, a + b)
         == if ApplyOps(doc, a).None? then None else ApplyOps(ApplyOps(doc, a).value, b)
    decreases |a|
  {
    if a == [] {
      assert a + b == b;
    } else {
      assert (a + b)[1..] == a[1..] + b;
      if ApplyOp(doc, a[0]).Some? {
        OpsConcat(ApplyOp(doc, a[0]).value, a[1..], b);
      }
    }
  }

  lemma {:induction false} OptionalSets(doc: Doc, path: string, value: Option<string>)
    ensures ApplyOps(doc, Optional(path, value)) == Some(Set(doc, path, value))
  {
    if value.Some? {
      assert [Add(path, value.value)][1..] == [];
    }
  }

  lemma {:induction false} GuardMeans(doc: Doc, p: StatusPatch, expected: string)
    ensures ApplyOps(doc, GuardOps(p, expected))
         == if PHASE in doc && doc[PHASE] == expected
            then Some(doc[PHASE := p.phase]["completedAt" := p.completedAt]) else None
  {
    var ops := GuardOps(p, expected);
    var last := [Add("completedAt", p.completedAt)];
    assert last[1..] == [] && ops[1..][1..] == last;
    var d1 := doc[PHASE := p.phase];
    assert ApplyOps(d1, last) == Some(d1["completedAt" := p.completedAt]);
    assert ApplyOps(doc, ops[1..]) == ApplyOps(d1, last);
  }

  /** A patch lands exactly on the phase it expects, and then sets its fields and nothing else. */
  lemma {:induction false} PatchMeans(doc: Doc, p: StatusPatch, expected: string)
    ensures ApplyOps(doc, PatchOps(p, expected))
         == if PHASE in doc && doc[PHASE] == expected then Some(Overlay(doc, p)) else None
    ensures Terminal(Overlay(doc, p))
  {
    var guard := GuardOps(p, expected);
    var d0 := doc[PHASE := p.phase]["completedAt" := p.completedAt];
    var d1 := Set(d0, "result", p.result);
    var d2 := Set(d1, "error", p.error);
    var d3 := Set(d2, "structuralVerdict", p.verdict);
    GuardMeans(doc, p, expected);
    OptionalSets(d0, "result", p.result);
    OptionalSets(d1, "error", p.error);
    OptionalSets(d2, "structuralVerdict", p.verdict);
    OptionalSets(d3, "artifacts", p.artifacts);
    var o1 := guard + Optional("result", p.result);
    var o2 := o1 + Optional("error", p.error);
    var o3 := o2 + Optional("structuralVerdict", p.verdict);
    OpsConcat(doc, guard, Optional("result", p.result));
    OpsConcat(doc, o1, Optional("error", p.error));
    OpsConcat(doc, o2, Optional("structuralVerdict", p.verdict));
    OpsConcat(doc, o3, Optional("artifacts", p.artifacts));
  }

  // ---------------------------------------------------------------- concurrent writers

  /**
   * How the server answers a patch: truthfully; by refusing it as invalid; with another error,
   * not having looked at it; or not at all, though it did look, and applied it if it could.
   */
  datatype Fate = Truthful | Invalid | Unreachable | Lost

  /** Where one `writeStatus` call stands. */
  datatype Call = Trying(next: nat) | Returned | Rejected

  datatype System = System(doc: Doc, calls: seq<Call>, landed: seq<nat>)

  datatype Event =
    | Send(i: nat, fate: Fate)
    | Look(i: nat, reached: bool)
    | Control(phase: string, fields: Doc)

  /** How far a phase is; a controller only moves forward. */
  function Rank(doc: Doc): nat {
    if PHASE !in doc then 0
    else if IsTerminal(doc[PHASE]) then 3
    else if doc[PHASE] == "Dispatched" then 2
    else 1
  }

  predicate Enabled(s: System, e: Event) {
    match e
    case Send(i, _) => i < |s.calls| && s.calls[i].Trying? && s.calls[i].next < |PHASES_TO_TRY|
    case Look(i, _) => i < |s.calls| && s.calls[i].Trying? && s.calls[i].next >= |PHASES_TO_TRY|
    case Control(phase, fields) => Rank(s.doc) < Rank((s.doc + fields)[PHASE := phase])
  }

  function Apply(s: System, patches: seq<StatusPatch>, e: Event): System
    requires Enabled(s, e) && |patches| == |s.calls|
  {
    match e
    case Send(i, fate) =>
      var k := s.calls[i].next;
      var outcome := ApplyOps(s.doc, PatchOps(patches[i], PHASES_TO_TRY[k]));
      if fate.Unreachable? || (fate.Lost? && outcome.None?) then s.(calls := s.calls[i := Rejected])
      else if fate.Lost? then System(outcome.value, s.calls[i := Rejected], s.landed + [i])
      else if fate.Invalid? || outcome.None? then s.(calls := s.calls[i := Trying(k + 1)])
      else System(outcome.value, s.calls[i := Returned], s.landed + [i])
    case Look(i, reached) =>
      s.(calls := s.calls[i := if reached && Terminal(s.doc) then Returned else Rejected])
    case Control(phase, fields) => s.(doc := (s.doc + fields)[PHASE := phase])
  }

  ghost predicate Leads(s: System, patches: seq<StatusPatch>, events: seq<Event>, t: System)
    requires |patches| == |s.calls|
    decreases |events|
  {
    if events == [] then s == t
    else Enabled(s, events[0]) && Leads(Apply(s, patches, events[0]), patches, events[1..], t)
  }

  function Start(doc: Doc, n: nat): System {
    System(doc, seq(n, i => Trying(0)), [])
  }

  /**
   * What one patch does: on the phase it expects it lands whole, if the server looks at it, and
   * otherwise leaves the status alone; an answer that is none ends the call, landed or not.
   */
  lemma {:induction false} SendMeans(s: System, patches: seq<StatusPatch>, i: nat, fate: Fate)
    requires |patches| == |s.calls| && i < |s.calls| && s.calls[i].Trying? && s.calls[i].next < 2
    ensures Enabled(s, Send(i, fate))
    ensures var t, k := Apply(s, patches, Send(i, fate)), s.calls[i].next;
            && (forall j :: 0 <= j < |s.calls| && j != i ==> t.calls[j] == s.calls[j])
            && (if (fate.Truthful? || fate.Lost?)
                   && PHASE in s.doc && s.doc[PHASE] == (if k == 0 then "Dispatched" else "Pending")
                then t.doc == Overlay(s.doc, patches[i]) && t.landed == s.landed + [i]
                     && t.calls[i] == if fate.Lost? then Rejected else Returned
                else t.doc == s.doc && t.landed == s.landed
                     && t.calls[i] == if fate.Unreachable? || fate.Lost? then Rejected else Trying(k + 1))
  {
    PatchMeans(s.doc, patches[i], PHASES_TO_TRY[s.calls[i].next]);
  }

  /** At most one patch has landed, its call is over, and a return means a terminal phase. */
  ghost predicate Settled(s: System) {
    && |s.landed| <= 1
    && (s.landed != [] ==>
          Terminal(s.doc) && s.landed[0] < |s.calls| && !s.calls[s.landed[0]].Trying?)
    && (forall i :: 0 <= i < |s.calls| && s.calls[i].Returned? ==> Terminal(s.doc))
  }

  lemma {:induction false} StepKeepsSettled(s: System, patches: seq<StatusPatch>, e: Event)
    requires |patches| == |s.calls| && Enabled(s, e) && Settled(s)
    ensures Settled(Apply(s, patches, e))
    ensures Terminal(s.doc) ==> Apply(s, patches, e).doc == s.doc
  {
    if e.Send? {
      PatchMeans(s.doc, patches[e.i], PHASES_TO_TRY[s.calls[e.i].next]);
    }
  }

  /**
   * With any number of concurrent calls and a controller that only moves forward: at most one
   * patch lands; a call returns only when the phase is terminal; and nothing changes a
   * terminal status any more.
   */
  lemma {:induction false} AtMostOneLands(
    s: System, patches: seq<StatusPatch>, events: seq<Event>, t: System)
    requires |patches| == |s.calls| && Settled(s) && Leads(s, patches, events, t)
    ensures Settled(t) && |t.calls| == |s.calls|
    ensures Terminal(s.doc) ==> t.doc == s.doc && t.landed == s.landed
    decreases |events|
  {
    hide ApplyOps, PatchOps, Overlay;
    if events != [] {
      StepKeepsSettled(s, patches, events[0]);
      if events[0].Send? {
        PatchMeans(s.doc, patches[events[0].i], PHASES_TO_TRY[s.calls[events[0].i].next]);
      }
      AtMostOneLands(Apply(s, patches, events[0]), patches, events[1..], t);
    }
  }

  /** The document is what one patch made of a document it was allowed to land on. */
  ghost predicate LandedIntact(s: System, patches: seq<StatusPatch>) {
    s.landed != [] ==>
      && s.landed[0] < |patches|
      && exists before: Doc :: !Terminal(before) && s.doc == Overlay(before, patches[s.landed[0]])
  }

  /** What the one landed patch wrote is still there at the end, all of it, and nothing added. */
  lemma {:induction false} LandedStays(
    s: System, patches: seq<StatusPatch>, events: seq<Event>, t: System)
    requires |patches| == |s.calls| && Settled(s) && LandedIntact(s, patches) && Leads(s, patches, events, t)
    ensures LandedIntact(t, patches)
    decreases |events|
  {
    hide ApplyOps, PatchOps, Overlay;
    if events != [] {
      var e := events[0];
      StepKeepsSettled(s, patches, e);
      if e.Send? {
        PatchMeans(s.doc, patches[e.i], PHASES_TO_TRY[s.calls[e.i].next]);
      }
      LandedStays(Apply(s, patches, e), patches, events[1..], t);
    }
  }

  /** From the start, whatever the document says. */
  lemma {:induction false} WritesAreSafe(
    doc: Doc, patches: seq<StatusPatch>, events: seq<Event>, t: System)
    requires Leads(Start(doc, |patches|), patches, events, t)
    ensures |t.landed| <= 1 && LandedIntact(t, patches)
    ensures forall i :: 0 <= i < |t.calls| && t.calls[i].Returned? ==> Terminal(t.doc)
  {
    AtMostOneLands(Start(doc, |patches|), patches, events, t);
    LandedStays(Start(doc, |patches|), patches, events, t);
  }

  // ---------------------------------------------------------------- when a call is refused

  /** The server is reached and answers truthfully. */
  predicate Fair(e: Event) {
    match e
    case Send(_, fate) => fate.Truthful?
    case Look(_, reached) => reached
    case Control(_, _) => true
  }

  predicate HasPhase(doc: Doc, phase: string) {
    PHASE in doc && doc[PHASE] == phase
  }

  /**
   * With a fair server the i-th call can be refused, if some interleaving of the calls and,
   * unless it is quiet, of a controller makes it so.
   */
  ghost predicate CanBeRejected(doc: Doc, patches: seq<StatusPatch>, i: nat, quiet: bool) {
    exists events, t: System ::
      && (forall e :: e in events ==> Fair(e) && (quiet ==> !e.Control?))
      && Leads(Start(doc, |patches|), patches, events, t)
      && i < |t.calls| && t.calls[i].Rejected?
  }

  /** A call that has tried can only meet a phase it may not replace if that is terminal. */
  ghost predicate Sheltered(s: System, quiet: bool) {
    && (Terminal(s.doc) || HasPhase(s.doc, "Dispatched") || (quiet && HasPhase(s.doc, "Pending")))
    && forall i :: 0 <= i < |s.calls| ==>
         && !s.calls[i].Rejected?
         && (s.calls[i].Trying? ==>
               && (s.calls[i].next > 0 ==> !HasPhase(s.doc, "Dispatched"))
               && (s.calls[i].next > 0 && !quiet ==> Terminal(s.doc))
               && (s.calls[i].next > 1 ==> Terminal(s.doc)))
  }

  lemma {:induction false} StepKeepsSheltered(s: System, patches: seq<StatusPatch>, e: Event, quiet: bool)
    requires |patches| == |s.calls| && Enabled(s, e) && Sheltered(s, quiet)
    requires Fair(e) && (quiet ==> !e.Control?)
    ensures Sheltered(Apply(s, patches, e), quiet)
  {
    if e.Send? {
      PatchMeans(s.doc, patches[e.i], PHASES_TO_TRY[s.calls[e.i].next]);
    }
  }

  lemma {:induction false} ShelteredStays(
    s: System, patches: seq<StatusPatch>, events: seq<Event>, t: System, quiet: bool)
    requires |patches| == |s.calls| && Sheltered(s, quiet) && Leads(s, patches, events, t)
    requires forall e :: e in events ==> Fair(e) && (quiet ==> !e.Control?)
    ensures Sheltered(t, quiet)
    decreases |events|
  {
    if events != [] {
      assert events[0] in events && forall e :: e in events[1..] ==> e in events;
      StepKeepsSheltered(s, patches, events[0], quiet);
      ShelteredStays(Apply(s, patches, events[0]), patches, events[1..], t, quiet);
    }
  }

  /** An attempt on a phase it does not expect. */
  lemma {:induction false} AttemptFails(s: System, patches: seq<StatusPatch>, i: nat)
    requires |patches| == |s.calls| && Enabled(s, Send(i, Truthful))
    requires !HasPhase(s.doc, PHASES_TO_TRY[s.calls[i].next])
    ensures Apply(s, patches, Send(i, Truthful)) == s.(calls := s.calls[i := Trying(s.calls[i].next + 1)])
  {
    PatchMeans(s.doc, patches[i], PHASES_TO_TRY[s.calls[i].next]);
  }

  /** The second attempt and the look at the phase. */
  lemma {:induction false} LastSteps(s: System, patches: seq<StatusPatch>, i: nat)
    requires |patches| == |s.calls| && i < |s.calls| && s.calls[i] == Trying(1)
    requires !HasPhase(s.doc, "Pending") && !Terminal(s.doc)
    ensures Leads(s, patches, [Send(i, Truthful), Look(i, true)], s.(calls := s.calls[i := Rejected]))
  {
    AttemptFails(s, patches, i);
    var s1 := Apply(s, patches, Send(i, Truthful));
    var s2 := Apply(s1, patches, Look(i, true));
    assert s2 == s.(calls := s.calls[i := Rejected]);
    var events := [Send(i, Truthful), Look(i, true)];
    assert events[1..] == [Look(i, true)] && [Look(i, true)][1..] == [];
    assert Leads(s2, patches, [], s2);
    assert Leads(s1, patches, [Look(i, true)], s2);
  }

  lemma {:induction false} RejectedQuietly(doc: Doc, patches: seq<StatusPatch>, i: nat)
    requires i < |patches| && !Terminal(doc) && !HasPhase(doc, "Dispatched") && !HasPhase(doc, "Pending")
    ensures CanBeRejected(doc, patches, i, true)
  {
    var s := Start(doc, |patches|);
    AttemptFails(s, patches, i);
    var s1 := Apply(s, patches, Send(i, Truthful));
    LastSteps(s1, patches, i);
    var rest := [Send(i, Truthful), Look(i, true)];
    var events := [Send(i, Truthful)] + rest;
    assert events[1..] == rest;
    assert Leads(s, patches, events, s1.(calls := s1.calls[i := Rejected]));
  }

  /** The race: the status is promoted to `Dispatched` between the two attempts. */
  lemma {:induction false} RejectedByPromotion(doc: Doc, patches: seq<StatusPatch>, i: nat)
    requires i < |patches| && !Terminal(doc) && !HasPhase(doc, "Dispatched")
    ensures CanBeRejected(doc, patches, i, false)
  {
    var s := Start(doc, |patches|);
    AttemptFails(s, patches, i);
    var s1 := Apply(s, patches, Send(i, Truthful));
    var promotion := Control("Dispatched", map[]);
    assert doc + map[] == doc;
    var s2 := Apply(s1, patches, promotion);
    LastSteps(s2, patches, i);
    var rest := [Send(i, Truthful), Look(i, true)];
    var later := [promotion] + rest;
    var events := [Send(i, Truthful)] + later;
    assert later[1..] == rest && events[1..] == later;
    var t := s2.(calls := s2.calls[i := Rejected]);
    assert Leads(s1, patches, later, t);
    assert Leads(s, patches, events, t);
  }

  /**
   * Whatever the other calls do, a call can be refused by a fair server exactly when the phase
   * at its start is neither terminal nor one it may replace, and with a controller at work
   * also when that phase is `Pending`: only `Dispatched` is then safe.
   */
  lemma {:induction false} RejectedExactly(doc: Doc, patches: seq<StatusPatch>, i: nat, quiet: bool)
    requires i < |patches|
    ensures CanBeRejected(doc, patches, i, quiet) <==>
              !(Terminal(doc) || HasPhase(doc, "Dispatched") || (quiet && HasPhase(doc, "Pending")))
  {
    if Terminal(doc) || HasPhase(doc, "Dispatched") || (quiet && HasPhase(doc, "Pending")) {
      forall events, t: System
        | (forall e :: e in events ==> Fair(e) && (quiet ==> !e.Control?))
          && Leads(Start(doc, |patches|), patches, events, t)
        ensures i < |t.calls| ==> !t.calls[i].Rejected?
      {
        ShelteredStays(Start(doc, |patches|), patches, events, t, quiet);
      }
    } else if quiet {
      RejectedQuietly(doc, patches, i);
    } else {
      RejectedByPromotion(doc, patches, i);
    }
  }

  // ---------------------------------------------------------------- one call

  datatype Answer = Accepted | Precondition | OtherError

  datatype Written = Ok | Refused | Unknown

  /** The status subresource, while others write to it too. */
  class Server {
    var doc: Doc
    ghost var landed: seq<StatusPatch>

    constructor (doc: Doc)
      ensures this.doc == doc && landed == []
    {
      this.doc, landed := doc, [];
    }

    /** Applies a patch as a whole, or not at all. */
    method Patch(ghost p: StatusPatch, ops: seq<Op>, fate: Fate) returns (answer: Answer)
      modifies this
      ensures answer.Accepted? <==> fate.Truthful? && ApplyOps(old(doc), ops).Some?
      ensures answer.OtherError? <==> fate.Unreachable? || fate.Lost?
      ensures (fate.Truthful? || fate.Lost?) && ApplyOps(old(doc), ops).Some? ==>
                Some(doc) == ApplyOps(old(doc), ops) && landed == old(landed) + [p]
      ensures !((fate.Truthful? || fate.Lost?) && ApplyOps(old(doc), ops).Some?) ==>
                doc == old(doc) && landed == old(landed)
    {
      if fate.Unreachable? {
        return OtherError;
      }
      var next := ApplyOps(doc, ops);
      if fate.Invalid? || next.None? {
        return if fate.Lost? then OtherError else Precondition;
      }
      doc := next.value;
      landed := landed + [p];
      answer := if fate.Lost? then OtherError else Accepted;
    }

    /** Others move the phase forward; a terminal status they leave alone. */
    method Others(phase: string, fields: Doc)
      modifies this`doc
      ensures Terminal(old(doc)) ==> doc == old(doc)
      ensures doc == old(doc) || Rank(old(doc)) < Rank(doc)
      ensures var moved := (old(doc) + fields)[PHASE := phase];
              doc == if Rank(old(doc)) < Rank(moved) then moved else old(doc)
    {
      var moved := (doc + fields)[PHASE := phase];
      if Rank(doc) < Rank(moved) {
        doc := moved;
      }
    }
  }

  /** The call hears what became of its patch. */
  predicate Answered(fate: Fate) {
    fate.Truthful? || fate.Invalid?
  }

  /** Somebody else gets to move the phase forward. */
  ghost predicate Promoted(doc: Doc, phases: nat -> string, fields: nat -> Doc) {
    exists k: nat :: Rank(doc) < Rank((doc + fields(k))[PHASE := phases(k)])
  }

  /**
   * `writeStatus`: tries each phase it may replace, then looks. It lands its patch at most
   * once, on a status that is not terminal; it returns normally only on a terminal phase.
   */
  method WriteStatus(
    server: Server, p: StatusPatch, fates: nat -> Fate, reached: bool,
    phases: nat -> string, fields: nat -> Doc)
    returns (written: Written)
    modifies server
    ensures written.Ok? ==> Terminal(server.doc)
    ensures server.landed == old(server.landed) || server.landed == old(server.landed) + [p]
    ensures server.landed != old(server.landed) ==> !written.Refused? && !Terminal(old(server.doc))
    ensures server.landed != old(server.landed) && written.Unknown? ==> fates(0).Lost? || fates(1).Lost?
    ensures Terminal(old(server.doc)) ==> server.doc == old(server.doc)
    ensures Terminal(old(server.doc)) && reached && Answered(fates(0)) && Answered(fates(1)) ==> written.Ok?
    ensures written.Unknown? ==> !reached || !Answered(fates(0)) || !Answered(fates(1))
    ensures written.Refused? ==> !Terminal(old(server.doc)) && !Terminal(server.doc)
    ensures written.Refused? && fates(0).Truthful? && fates(1).Truthful? && server.doc == old(server.doc) ==>
              !(PHASE in server.doc && server.doc[PHASE] in PHASES_TO_TRY)
    ensures written.Refused? && fates(0).Truthful? ==> !HasPhase(old(server.doc), "Dispatched")
    ensures server.landed != old(server.landed) ==>
              exists before ::
                && (HasPhase(before, "Dispatched") || HasPhase(before, "Pending"))
                && server.doc == Overlay(before, p)
    ensures fates(0).Truthful? && fates(1).Truthful? && !Promoted(old(server.doc), phases, fields)
            && (HasPhase(old(server.doc), "Dispatched") || HasPhase(old(server.doc), "Pending")) ==>
              written.Ok? && server.landed == old(server.landed) + [p]
              && server.doc == Overlay(old(server.doc), p)
  {
    hide ApplyOps, PatchOps, Overlay;
    var k := 0;
    while k < |PHASES_TO_TRY|
      invariant 0 <= k <= |PHASES_TO_TRY| && server.landed == old(server.landed)
      invariant Terminal(old(server.doc)) ==> server.doc == old(server.doc)
      invariant server.doc == old(server.doc) || Rank(old(server.doc)) < Rank(server.doc)
      invariant k > 0 && fates(0).Truthful? && HasPhase(old(server.doc), "Dispatched") ==>
                  Terminal(server.doc)
      invariant !Promoted(old(server.doc), phases, fields) ==> server.doc == old(server.doc)
      invariant server.doc == old(server.doc) && PHASE in server.doc ==>
                  forall j :: 0 <= j < k && fates(j).Truthful? ==> server.doc[PHASE] != PHASES_TO_TRY[j]
    {
      server.Others(phases(k), fields(k));
      var ops := BuildOps(p, PHASES_TO_TRY[k]);
      PatchMeans(server.doc, p, PHASES_TO_TRY[k]);
      var answer := server.Patch(p, ops, fates(k));
      if answer.Accepted? {
        return Ok;
      }
      if answer.OtherError? {
        return Unknown;
      }
      k := k + 1;
    }
    server.Others(phases(k), fields(k));
    if !reached {
      return Unknown;
    }
    written := if Terminal(server.doc) then Ok else Refused;
  }
}
