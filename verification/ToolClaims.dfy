/** Claims of tool names by providers, some of which answer late, and the wait for them. */
module ToolClaims {
  import opened Common

  /** How a provider's claim stands; a fetch that failed is retried, a conflict is not. */
  datatype Claim =
    | Awaiting
    | Held(names: seq<string>)
    | Unreachable
    | Conflicting

  /** One settle pass of `ready`, shared by all its callers, with the claims each await covers. */
  datatype Pass = Idle | First(covered: set<string>) | Second(started: set<string>, covered: set<string>)

  /**
   * Who owns which name; the claims of all providers; which of them described their tools
   * with a promise; and the pass under way.
   */
  datatype Registry = Registry(
    owners: map<string, string>,
    claims: map<string, Claim>,
    deferred: set<string>,
    pass: Pass)

  const EMPTY := Registry(map[], map[], {}, Idle)

  datatype Described = Now(names: seq<string>) | Later

  datatype Event =
    | Register(id: string, described: Described)
    | Arrive(id: string, names: seq<string>)
    | Miss(id: string)
    | Begin
    | Retry
    | End

  // ---------------------------------------------------------------- claiming names

  /** Claims names one by one; the first that another provider owns ends it. */
  function ClaimAll(owners: map<string, string>, id: string, names: seq<string>): (map<string, string>, bool)
    decreases |names|
  {
    if names == [] then (owners, true)
    else if names[0] in owners && owners[names[0]] != id then (owners, false)
    else ClaimAll(owners[names[0] := id], id, names[1..])
  }

  ghost predicate OwnsAll(owners: map<string, string>, id: string, names: seq<string>) {
    forall n :: n in names ==> n in owners && owners[n] == id
  }

  /** No owner changes, and a claim that goes through owns every name. */
  lemma {:induction false} ClaimMeans(owners: map<string, string>, id: string, names: seq<string>)
    ensures var (after, ok) := ClaimAll(owners, id, names);
            && (forall n :: n in owners ==> n in after && after[n] == owners[n])
            && (ok <==> forall n :: n in names ==> n !in owners || owners[n] == id)
            && (ok ==> OwnsAll(after, id, names))
    decreases |names|
  {
    if names != [] && (names[0] !in owners || owners[names[0]] == id) {
      ClaimMeans(owners[names[0] := id], id, names[1..]);
      assert names == [names[0]] + names[1..];
    }
  }

  // ---------------------------------------------------------------- events

  predicate Settled(r: Registry, covered: set<string>) {
    forall id :: id in covered ==> id in r.claims && !r.claims[id].Awaiting?
  }

  predicate Failed(r: Registry, id: string) {
    id in r.deferred && id in r.claims && (r.claims[id].Unreachable? || r.claims[id].Conflicting?)
  }

  /** No claim is recorded as failed. */
  predicate Clean(r: Registry) {
    forall id :: id in r.deferred ==> !Failed(r, id)
  }

  predicate Enabled(r: Registry, e: Event) {
    match e
    case Register(_, _) => true
    case Arrive(id, _) => id in r.deferred && id in r.claims && r.claims[id].Awaiting?
    case Miss(id) => id in r.deferred && id in r.claims && r.claims[id].Awaiting?
    case Begin => r.pass.Idle?
    case Retry => r.pass.First? && Settled(r, r.pass.covered)
    case End => r.pass.Second? && Settled(r, r.pass.covered)
  }

  /** A provider with a known id is refused; a conflict leaves the names claimed before it. */
  function Apply(r: Registry, e: Event): Registry
    requires Enabled(r, e)
  {
    match e
    case Register(id, described) =>
      if id in r.claims then r
      else if described.Later? then
        r.(claims := r.claims[id := Awaiting], deferred := r.deferred + {id})
      else
        var (owners, ok) := ClaimAll(r.owners, id, described.names);
        r.(owners := owners, claims := r.claims[id := if ok then Held(described.names) else Conflicting])
    case Arrive(id, names) =>
      var (owners, ok) := ClaimAll(r.owners, id, names);
      r.(owners := owners, claims := r.claims[id := if ok then Held(names) else Conflicting])
    case Miss(id) => r.(claims := r.claims[id := Unreachable])
    case Begin => r.(pass := First(r.deferred))
    case Retry =>
      r.(claims := map id | id in r.claims ::
           if id in r.deferred && r.claims[id].Unreachable? then Awaiting else r.claims[id],
         pass := Second(r.pass.covered, r.deferred))
    case End => r.(pass := Idle)
  }

  ghost predicate Leads(r: Registry, events: seq<Event>, t: Registry)
    decreases |events|
  {
    if events == [] then r == t
    else Enabled(r, events[0]) && Leads(Apply(r, events[0]), events[1..], t)
  }

  // ---------------------------------------------------------------- what every interleaving keeps

  /** A claim that holds owns all its names, and a pass covers deferred claims that exist. */
  ghost predicate Sound(r: Registry) {
    && r.deferred <= r.claims.Keys
    && (forall id :: id in r.claims && r.claims[id].Held? ==> OwnsAll(r.owners, id, r.claims[id].names))
    && (r.pass.First? ==> r.pass.covered <= r.deferred)
    && (r.pass.Second? ==> r.pass.started <= r.pass.covered <= r.deferred)
  }

  lemma {:induction false} StepKeepsSound(r: Registry, e: Event)
    requires Sound(r) && Enabled(r, e)
    ensures Sound(Apply(r, e))
    ensures forall n :: n in r.owners ==> n in Apply(r, e).owners && Apply(r, e).owners[n] == r.owners[n]
  {
    match e {
      case Register(id, Now(names)) => ClaimMeans(r.owners, id, names);
      case Arrive(id, names) => ClaimMeans(r.owners, id, names);
      case _ =>
    }
  }

  /** Under every interleaving of claims, late claims and retries, a name keeps its owner. */
  lemma {:induction false} OwnersStay(r: Registry, events: seq<Event>, t: Registry)
    requires Sound(r) && Leads(r, events, t)
    ensures Sound(t)
    ensures forall n :: n in r.owners ==> n in t.owners && t.owners[n] == r.owners[n]
    decreases |events|
  {
    if events != [] {
      StepKeepsSound(r, events[0]);
      OwnersStay(Apply(r, events[0]), events[1..], t);
    }
  }

  /** A claim that holds keeps its names for good. */
  lemma {:induction false} HeldStays(r: Registry, events: seq<Event>, t: Registry, id: string)
    requires Sound(r) && Leads(r, events, t) && id in r.claims && r.claims[id].Held?
    ensures id in t.claims && t.claims[id] == r.claims[id]
    decreases |events|
  {
    if events != [] {
      StepKeepsSound(r, events[0]);
      HeldStays(Apply(r, events[0]), events[1..], t, id);
    }
  }

  /** No other pass begins in between. */
  ghost predicate SamePass(events: seq<Event>) {
    forall k :: 0 <= k < |events| ==> !events[k].Begin? && !events[k].End?
  }

  /** While a pass is under way it goes on covering what it started with. */
  lemma {:induction false} PassCovers(r: Registry, events: seq<Event>, t: Registry, started: set<string>)
    requires Sound(r) && Leads(r, events, t) && SamePass(events)
    requires match r.pass
             case Idle => false
             case First(covered) => covered == started
             case Second(s, covered) => s == started
    ensures match t.pass
            case Idle => false
            case First(covered) => covered == started
            case Second(s, covered) => s == started
    decreases |events|
  {
    if events != [] {
      StepKeepsSound(r, events[0]);
      assert SamePass(events[1..]) by {
        forall k | 0 <= k < |events[1..]|
          ensures !events[1..][k].Begin? && !events[1..][k].End?
        {
          assert events[1..][k] == events[k + 1];
        }
      }
      PassCovers(Apply(r, events[0]), events[1..], t, started);
    }
  }

  /**
   * `ready` resolves only when every provider that was registered successfully before its
   * pass holds its claim, and so owns every name it described.
   */
  lemma {:induction false} ReadyMeansOwned(
    r: Registry, events: seq<Event>, t: Registry, id: string)
    requires Sound(r) && r.pass.Idle? && SamePass(events)
    requires Leads(Apply(r, Begin), events, t) && Enabled(t, End) && Clean(t)
    requires id in r.claims && (id in r.deferred || r.claims[id].Held?)
    ensures id in t.claims && t.claims[id].Held? && OwnsAll(t.owners, id, t.claims[id].names)
  {
    StepKeepsSound(r, Begin);
    OwnersStay(Apply(r, Begin), events, t);
    if id in r.deferred {
      PassCovers(Apply(r, Begin), events, t, r.deferred);
      assert id in t.pass.covered && !Failed(t, id);
    } else {
      HeldStays(Apply(r, Begin), events, t, id);
    }
  }

  /**
   * And it does resolve: once every claim of a pass has been answered, those that were not
   * reached are asked again, and when in the end all hold, nothing stands in its way.
   */
  lemma {:induction false} ReadyResolves(r: Registry, t: Registry, id: string)
    requires Sound(r) && r.pass.First? && r.pass.covered == r.deferred
    requires forall p :: p in r.deferred ==> r.claims[p].Held? || r.claims[p].Unreachable?
    requires id in r.deferred && t == Apply(r, Retry)
    ensures Enabled(r, Retry) && t.pass == Second(r.deferred, r.deferred)
    ensures if r.claims[id].Unreachable? then
              t.claims[id].Awaiting? && Enabled(t, Miss(id)) && forall names :: Enabled(t, Arrive(id, names))
            else t.claims[id] == r.claims[id]
    ensures (forall p :: p in r.deferred ==> r.claims[p].Held?) ==> Enabled(t, End) && Clean(t)
  {
  }

  /** Callers that come during a pass share it: until it is asked again it goes on as it began. */
  lemma {:induction false} PassGoesOn(r: Registry, e: Event)
    requires r.pass.First? && Enabled(r, e)
    ensures Apply(r, e).pass == r.pass || (e.Retry? && Apply(r, e).pass == Second(r.pass.covered, r.deferred))
    ensures forall id :: id in r.pass.covered && id in r.claims && r.claims[id].Awaiting? ==> !e.Retry?
  {
  }

  lemma {:induction false} LeadsNowhere(r: Registry)
    ensures Leads(r, [], r)
  {
  }

  lemma {:induction false} LeadsBy(r: Registry, e: Event, r1: Registry, events: seq<Event>, t: Registry)
    requires Enabled(r, e) && r1 == Apply(r, e) && Leads(r1, events, t)
    ensures Leads(r, [e] + events, t)
  {
    assert ([e] + events)[1..] == events;
  }

  /** A provider not reached at first is asked again, when all the others hold their claims. */
  lemma {:induction false} AskedAgain(r: Registry, id: string)
    requires r.pass.Idle? && id !in r.claims && r.deferred <= r.claims.Keys
    requires forall p :: p in r.deferred ==> r.claims[p].Held?
    ensures var known := r.deferred + {id};
            var t := r.(claims := r.claims[id := Awaiting], deferred := known, pass := Second(known, known));
            Leads(r, [Register(id, Later)] + ([Begin] + ([Miss(id)] + ([Retry] + []))), t)
  {
    hide Leads;
    var r1 := Apply(r, Register(id, Later));
    var r2 := Apply(r1, Begin);
    var r3 := Apply(r2, Miss(id));
    var r4 := Apply(r3, Retry);
    assert r4.claims == r.claims[id := Awaiting];
    LeadsNowhere(r4);
    LeadsBy(r3, Retry, r4, [], r4);
    LeadsBy(r2, Miss(id), r3, [Retry] + [], r4);
    LeadsBy(r1, Begin, r2, [Miss(id)] + ([Retry] + []), r4);
    LeadsBy(r, Register(id, Later), r1, [Begin] + ([Miss(id)] + ([Retry] + [])), r4);
  }

  lemma {:induction false} LeadsOn(r: Registry, first: seq<Event>, s: Registry, second: seq<Event>, t: Registry)
    requires Leads(r, first, s) && Leads(s, second, t)
    ensures Leads(r, first + second, t)
    decreases |first|
  {
    if first == [] {
      assert first + second == second;
    } else {
      LeadsOn(Apply(r, first[0]), first[1..], s, second, t);
      assert (first + second)[1..] == first[1..] + second;
    }
  }

  /**
   * A provider that answers only when asked a second time is ready all the same: the pass waits
   * for it, asks again, and ends with its names owned.
   */
  lemma {:induction false} SecondAskSuffices(r: Registry, id: string, names: seq<string>)
    requires Sound(r) && r.pass.Idle? && id !in r.claims
    requires forall p :: p in r.deferred ==> r.claims[p].Held?
    requires forall n :: n in names ==> n !in r.owners || r.owners[n] == id
    ensures exists t ::
              && Leads(r, [Register(id, Later), Begin, Miss(id), Retry, Arrive(id, names), End], t)
              && t.pass.Idle? && Clean(t) && t.claims == r.claims[id := Held(names)]
              && forall n :: n in names ==> n in t.owners && t.owners[n] == id
  {
    hide ClaimAll, Leads;
    AskedAgain(r, id);
    var known := r.deferred + {id};
    var asked := r.(claims := r.claims[id := Awaiting], deferred := known, pass := Second(known, known));
    ClaimMeans(r.owners, id, names);
    var answered := Apply(asked, Arrive(id, names));
    assert answered.claims == r.claims[id := Held(names)];
    var t := Apply(answered, End);
    LeadsNowhere(t);
    LeadsBy(answered, End, t, [], t);
    LeadsBy(asked, Arrive(id, names), answered, [End] + [], t);
    var first := [Register(id, Later)] + ([Begin] + ([Miss(id)] + ([Retry] + [])));
    LeadsOn(r, first, asked, [Arrive(id, names)] + ([End] + []), t);
    assert first + ([Arrive(id, names)] + ([End] + []))
        == [Register(id, Later), Begin, Miss(id), Retry, Arrive(id, names), End];
  }

  /** A conflict is final: the provider's claim never holds, and `ready` never resolves again. */
  lemma {:induction false} ConflictIsFinal(r: Registry, events: seq<Event>, t: Registry, id: string)
    requires Sound(r) && Leads(r, events, t) && id in r.deferred && r.claims[id].Conflicting?
    ensures id in t.deferred && id in t.claims && t.claims[id].Conflicting? && !Clean(t)
    decreases |events|
  {
    if events != [] {
      StepKeepsSound(r, events[0]);
      ConflictIsFinal(Apply(r, events[0]), events[1..], t, id);
    } else {
      assert Failed(t, id);
    }
  }

  // ---------------------------------------------------------------- names a model might have meant

  /** The exact name, or else every name it is the namespace or the leaf of. */
  function CandidatesFor(owners: map<string, string>, name: string): set<string> {
    if name in owners then {name}
    else set n | n in owners && (name + "." <= n || EndsWith(n, "." + name))
  }

  predicate EndsWith(s: string, suffix: string) {
    |suffix| <= |s| && s[|s| - |suffix|..] == suffix
  }

  /** The one registered name that is meant; none if there is no candidate, or more than one. */
  ghost function ResolveName(owners: map<string, string>, name: string): Option<string> {
    var candidates := CandidatesFor(owners, name);
    if |candidates| == 1 then
      var n :| n in candidates;
      Some(n)
    else None
  }

  /** Being the only candidate is what resolving means. */
  lemma {:induction false} OnlyCandidate(owners: map<string, string>, name: string, n: string)
    ensures ResolveName(owners, name) == Some(n) <==> CandidatesFor(owners, name) == {n}
  {
    var candidates := CandidatesFor(owners, name);
    if |candidates| == 1 {
      var m := ResolveName(owners, name).value;
      assert candidates - {m} == {} by {
        assert |candidates - {m}| == 0;
      }
      assert candidates == {m};
    }
  }

  /** A registered name that has `name` as its namespace or as its leaf. */
  ghost predicate NamedBy(n: string, name: string) {
    exists part :: n == name + "." + part || n == part + "." + name
  }

  lemma {:induction false} NamedByExactly(n: string, name: string)
    ensures NamedBy(n, name) <==> name + "." <= n || EndsWith(n, "." + name)
  {
    if name + "." <= n {
      assert n == name + "." + n[|name| + 1..];
    }
    if EndsWith(n, "." + name) {
      var k := |n| - |"." + name|;
      assert n == n[..k] + ("." + name) && n[..k] + ("." + name) == n[..k] + "." + name;
    }
    forall part | n == name + "." + part || n == part + "." + name
      ensures name + "." <= n || EndsWith(n, "." + name)
    {
      assert n == part + "." + name ==> n[|part|..] == "." + name;
    }
  }

  /**
   * A registered name is what `name` resolves to exactly if it is that name, or, when that is not
   * registered, the only one that has it as its namespace or its leaf.
   */
  lemma {:induction false} ResolvesExactly(owners: map<string, string>, name: string, n: string)
    ensures ResolveName(owners, name) == Some(n) <==>
              && n in owners
              && (if name in owners then n == name
                  else NamedBy(n, name) && forall other :: other in owners && NamedBy(other, name) ==> other == n)
  {
    hide EndsWith, NamedBy;
    OnlyCandidate(owners, name, n);
    forall other
      ensures NamedBy(other, name) <==> name + "." <= other || EndsWith(other, "." + name)
    {
      NamedByExactly(other, name);
    }
    var candidates := CandidatesFor(owners, name);
    if candidates == {n} {
      assert n in candidates;
      forall other | other in owners && NamedBy(other, name) && name !in owners
        ensures other == n
      {
        assert other in candidates;
      }
    }
  }

  /**
   * Whatever is claimed later, an exact name goes on meaning itself, and a name that was
   * resolved as a namespace or a leaf never comes to mean another tool: it still means the
   * same one, or has become ambiguous, or is now an exact name itself.
   */
  lemma {:induction false} ResolutionStays(r: Registry, events: seq<Event>, t: Registry, name: string)
    requires Sound(r) && Leads(r, events, t)
    ensures name in r.owners ==> ResolveName(t.owners, name) == Some(name)
    ensures ResolveName(r.owners, name).Some? ==>
              ResolveName(t.owners, name) in {ResolveName(r.owners, name), None, Some(name)}
  {
    OwnersStay(r, events, t);
    if name in t.owners {
      OnlyCandidate(t.owners, name, name);
    } else if ResolveName(r.owners, name).Some? && ResolveName(t.owners, name).Some? {
      var before, after := ResolveName(r.owners, name).value, ResolveName(t.owners, name).value;
      OnlyCandidate(r.owners, name, before);
      OnlyCandidate(t.owners, name, after);
      assert before in CandidatesFor(r.owners, name);
      assert before in CandidatesFor(t.owners, name);
    }
  }

  // ---------------------------------------------------------------- the registry

  datatype Registered = Accepted | DuplicateId | DuplicateName

  /** `ToolProviderRegistry`, with what its promises have come to kept as claims. */
  class ToolProviderRegistry {
    var owners: map<string, string>
    var claims: map<string, Claim>
    var deferred: set<string>
    var pass: Pass

    function State(): Registry
      reads this
    {
      Registry(owners, claims, deferred, pass)
    }

    constructor ()
      ensures State() == EMPTY && Sound(State())
    {
      owners, claims, deferred, pass := map[], map[], {}, Idle;
    }

    /** The claim loop: stops at the first name that another provider owns. */
    method ClaimNames(id: string, names: seq<string>) returns (ok: bool)
      modifies this`owners
      ensures (owners, ok) == ClaimAll(old(owners), id, names)
    {
      var k := 0;
      assert names[0..] == names;
      while k < |names|
        invariant 0 <= k <= |names|
        invariant ClaimAll(owners, id, names[k..]) == ClaimAll(old(owners), id, names)
      {
        var name := names[k];
        assert names[k..][0] == name && names[k..][1..] == names[k + 1..];
        if name in owners && owners[name] != id {
          return false;
        }
        owners := owners[name := id];
        k := k + 1;
      }
      ok := true;
    }

    /** Registers a provider that describes its tools now, or with a promise. */
    method Add(id: string, described: Described) returns (result: Registered)
      modifies this
      ensures State() == Apply(old(State()), Register(id, described))
      ensures result.DuplicateId? <==> id in old(claims)
      ensures result.DuplicateName? <==>
                && id !in old(claims) && described.Now?
                && exists n :: n in described.names && n in old(owners) && old(owners)[n] != id
    {
      if id in claims {
        return DuplicateId;
      }
      match described {
        case Later =>
          claims := claims[id := Awaiting];
          deferred := deferred + {id};
          result := Accepted;
        case Now(names) =>
          ClaimMeans(owners, id, names);
          var ok := ClaimNames(id, names);
          claims := claims[id := if ok then Held(names) else Conflicting];
          result := if ok then Accepted else DuplicateName;
      }
    }

    /** A promised description arrives, or fails. */
    method Arrived(id: string, names: Option<seq<string>>)
      requires id in deferred && id in claims && claims[id].Awaiting?
      modifies this
      ensures State() == Apply(old(State()), if names.Some? then Arrive(id, names.value) else Miss(id))
    {
      if names.None? {
        claims := claims[id := Unreachable];
        return;
      }
      var ok := ClaimNames(id, names.value);
      claims := claims[id := if ok then Held(names.value) else Conflicting];
    }

    /** `settle`, up to its first await; concurrent callers share the pass. */
    method BeginSettle()
      modifies this`pass
      ensures State() == if old(pass).Idle? then Apply(old(State()), Begin) else old(State())
    {
      if pass.Idle? {
        pass := First(deferred);
      }
    }

    /** Between its awaits: every claim that failed for another reason than a conflict is retried. */
    method RetryFailed()
      requires Enabled(State(), Retry)
      modifies this
      ensures State() == Apply(old(State()), Retry)
    {
      var failed := set id | id in claims && id in deferred && claims[id].Unreachable?;
      ghost var goal := Apply(State(), Retry).claims;
      var retried := claims;
      while failed != {}
        invariant failed <= claims.Keys && retried.Keys == claims.Keys == goal.Keys
        invariant forall id :: id in failed ==> claims[id].Unreachable? && id in deferred
        invariant forall id :: id in claims ==> retried[id] == if id in failed then claims[id] else goal[id]
        decreases failed
      {
        var id :| id in failed;
        retried := retried[id := Awaiting];
        failed := failed - {id};
      }
      assert retried == goal;
      claims := retried;
      pass := Second(pass.covered, deferred);
    }

    /** Behind its second await: rejects with a recorded failure, or resolves. */
    method EndSettle() returns (resolved: bool)
      requires Enabled(State(), End)
      modifies this`pass
      ensures State() == old(State()).(pass := Idle)
      ensures resolved <==> forall id :: id in deferred && id in claims ==> claims[id].Awaiting? || claims[id].Held?
    {
      resolved := Clean(State());
      pass := Idle;
    }
  }
}
