/** What compaction keeps, how far it shrinks, and when it has nothing left to do. */
module CompactionTheorems {
  import opened Common
  import opened Conversation
  import opened Compaction

  // ---------------------------------------------------------------- order of the first pass

  /** Largest first, and of equal sizes the oldest first. */
  ghost predicate Sorted(sizes: seq<nat>, order: seq<nat>) {
    && (forall k :: 0 <= k < |order| ==> order[k] < |sizes|)
    && forall a, b :: 0 <= a < b < |order| ==>
         if sizes[order[a]] == sizes[order[b]] then order[a] < order[b] else sizes[order[a]] > sizes[order[b]]
  }

  lemma {:induction false} SortedCons(sizes: seq<nat>, i: nat, rest: seq<nat>)
    requires i < |sizes| && Sorted(sizes, rest)
    requires forall j :: j in rest ==> j < |sizes| && Earlier(sizes, i, j)
    ensures Sorted(sizes, [i] + rest)
  {
    var all := [i] + rest;
    forall a, b | 0 <= a < b < |all|
      ensures if sizes[all[a]] == sizes[all[b]] then all[a] < all[b] else sizes[all[a]] > sizes[all[b]]
    {
      assert all[b] == rest[b - 1] && rest[b - 1] in rest;
      assert a > 0 ==> all[a] == rest[a - 1];
    }
  }

  lemma {:induction false} InsertSorted(sizes: seq<nat>, order: seq<nat>, i: nat)
    requires i < |sizes| && Sorted(sizes, order) && i !in order
    ensures Sorted(sizes, Insert(sizes, order, i))
    ensures forall j :: j in Insert(sizes, order, i) <==> j in order || j == i
  {
    if order == [] {
    } else if Earlier(sizes, i, order[0]) {
      SortedCons(sizes, i, order);
    } else {
      InsertSorted(sizes, order[1..], i);
      SortedCons(sizes, order[0], Insert(sizes, order[1..], i));
    }
  }

  /** The first pass visits every unprotected message once, largest first, ties oldest first. */
  lemma {:induction false} LargestFirstSorts(sizes: seq<nat>, n: nat)
    requires n <= |sizes|
    ensures Sorted(sizes, LargestFirst(sizes, n))
    ensures forall i :: i in LargestFirst(sizes, n) <==> 0 <= i < n
  {
    if n > 0 {
      LargestFirstSorts(sizes, n - 1);
      InsertSorted(sizes, LargestFirst(sizes, n - 1), n - 1);
    }
  }

  // ---------------------------------------------------------------- stubbing steps

  lemma {:induction false} StubAt(ms: seq<Message>, i: nat, prose: bool)
    requires i < |ms| && Stubbable(ms[i], prose)
    ensures Pointwise(ms, ms[i := Stub(ms[i], prose)])
    ensures Chars(ms[i := Stub(ms[i], prose)]) < Chars(ms)
  {
    StubWeakens(ms[i], prose);
    StubShrinks(ms[i], prose);
    CharsUpdate(ms, i, Stub(ms[i], prose));
  }

  lemma {:induction false} StubInOrderFacts(
    ms: seq<Message>, order: seq<nat>, enough: seq<Message> -> bool)
    requires Below(order, |ms|)
    ensures var r := StubInOrder(ms, order, enough);
            && Pointwise(ms, r.0)
            && Chars(r.0) + r.1 <= Chars(ms)
            && (r.1 == 0 ==> r.0 == ms)
            && forall i :: 0 <= i < |ms| && i !in order ==> r.0[i] == ms[i]
    decreases |order|
  {
    if order != [] {
      if !Stubbable(ms[order[0]], false) {
        StubInOrderFacts(ms, order[1..], enough);
      } else {
        var ms' := ms[order[0] := Stub(ms[order[0]], false)];
        StubAt(ms, order[0], false);
        if !enough(ms') {
          StubInOrderFacts(ms', order[1..], enough);
          PointwiseTransitive(ms, ms', StubInOrder(ms', order[1..], enough).0);
        }
      }
    }
  }

  /** The first pass stops early only when it is told that enough is gone. */
  lemma {:induction false} StubInOrderExhausts(
    ms: seq<Message>, order: seq<nat>, enough: seq<Message> -> bool)
    requires Below(order, |ms|)
    ensures var r := StubInOrder(ms, order, enough);
            (r.1 > 0 && enough(r.0)) || forall i :: i in order ==> !Stubbable(r.0[i], false)
    decreases |order|
  {
    if order != [] {
      var i, rest := order[0], order[1..];
      if !Stubbable(ms[i], false) {
        StubInOrderExhausts(ms, rest, enough);
        StubInOrderInert(ms, rest, enough, i);
      } else {
        var ms' := ms[i := Stub(ms[i], false)];
        StubIsFinal(ms[i], false);
        if !enough(ms') {
          StubInOrderExhausts(ms', rest, enough);
          StubInOrderInert(ms', rest, enough, i);
        }
      }
    }
  }

  lemma {:induction false} StubInOrderInert(
    ms: seq<Message>, order: seq<nat>, enough: seq<Message> -> bool, i: nat)
    requires Below(order, |ms|) && i < |ms| && !Stubbable(ms[i], false)
    ensures StubInOrder(ms, order, enough).0[i] == ms[i]
    decreases |order|
  {
    if order != [] {
      if !Stubbable(ms[order[0]], false) {
        StubInOrderInert(ms, order[1..], enough, i);
      } else {
        var ms' := ms[order[0] := Stub(ms[order[0]], false)];
        if !enough(ms') {
          StubInOrderInert(ms', order[1..], enough, i);
        }
      }
    }
  }

  lemma {:induction false} StubUpToWeakens(
    ms: seq<Message>, i: nat, latest: nat, enough: seq<Message> -> bool)
    requires latest <= |ms|
    ensures Pointwise(ms, StubUpTo(ms, i, latest, enough).0)
    decreases latest - i
  {
    if i < latest && !enough(ms) {
      if !Stubbable(ms[i], true) {
        StubUpToWeakens(ms, i + 1, latest, enough);
      } else {
        var ms' := ms[i := Stub(ms[i], true)];
        StubAt(ms, i, true);
        StubUpToWeakens(ms', i + 1, latest, enough);
        PointwiseTransitive(ms, ms', StubUpTo(ms', i + 1, latest, enough).0);
      }
    }
  }

  lemma {:induction false} StubUpToShrinks(
    ms: seq<Message>, i: nat, latest: nat, enough: seq<Message> -> bool)
    requires latest <= |ms|
    ensures var r := StubUpTo(ms, i, latest, enough);
            && Chars(r.0) + r.1 <= Chars(ms)
            && (r.1 == 0 ==> r.0 == ms)
    decreases latest - i
  {
    if i < latest && !enough(ms) {
      if !Stubbable(ms[i], true) {
        StubUpToShrinks(ms, i + 1, latest, enough);
      } else {
        StubAt(ms, i, true);
        StubUpToShrinks(ms[i := Stub(ms[i], true)], i + 1, latest, enough);
      }
    }
  }

  lemma {:induction false} StubUpToExhausts(
    ms: seq<Message>, i: nat, latest: nat, enough: seq<Message> -> bool)
    requires i <= latest <= |ms|
    requires forall j :: 0 <= j < i ==> !Stubbable(ms[j], true)
    ensures var r := StubUpTo(ms, i, latest, enough).0;
            !enough(r) ==> forall j :: 0 <= j < latest ==> !Stubbable(r[j], true)
    decreases latest - i
  {
    if i < latest && !enough(ms) {
      if !Stubbable(ms[i], true) {
        StubUpToExhausts(ms, i + 1, latest, enough);
      } else {
        StubIsFinal(ms[i], true);
        StubUpToExhausts(ms[i := Stub(ms[i], true)], i + 1, latest, enough);
      }
    }
  }

  lemma {:induction false} PointwiseWellFormed(ms: seq<Message>, ms': seq<Message>)
    requires WellFormed(ms) && Pointwise(ms, ms')
    ensures WellFormed(ms')
  {
    forall i | 0 <= i < |ms|
      ensures SameShape(ms[i], ms'[i])
    {
      assert Weakened(ms[i], ms'[i]);
    }
    WellFormedShape(ms, ms');
  }

  // ---------------------------------------------------------------- what the searches find

  lemma {:induction false} LastOfFinds(ms: seq<Message>, role: Role, n: nat)
    requires n <= |ms|
    ensures var i := LastOf(ms, role, n);
            && (i >= 0 ==> ms[i].role == role)
            && forall j :: i < j < n ==> ms[j].role != role
  {
    if n > 0 && ms[n - 1].role != role {
      LastOfFinds(ms, role, n - 1);
    }
  }

  lemma {:induction false} LastOfUnique(ms: seq<Message>, role: Role, n: nat, i: int)
    requires n <= |ms| && -1 <= i < n
    requires i >= 0 ==> ms[i].role == role
    requires forall j :: i < j < n ==> ms[j].role != role
    ensures LastOf(ms, role, n) == i
  {
    LastOfFinds(ms, role, n);
  }

  /** An assistant message and all the tool results behind it. */
  ghost predicate Exchange(ms: seq<Message>, start: nat, end: nat) {
    && start < end <= |ms|
    && ms[start].role.Assistant?
    && end == SkipTools(ms, start + 1)
  }

  ghost predicate ExchangeIn(ms: seq<Message>, start: nat, end: nat, from: nat, before: nat) {
    Exchange(ms, start, end) && from <= start && end <= before <= |ms|
  }

  lemma {:induction false} NextExchangeFinds(ms: seq<Message>, i: nat, before: nat)
    requires before <= |ms|
    ensures var r := NextExchange(ms, i, before);
            && (r.Some? ==> Exchange(ms, r.value.0, r.value.1))
            && (r.None? && (before < |ms| ==> !ms[before].role.Tool?) ==>
                  forall j :: i <= j < before ==> !ms[j].role.Assistant?)
    decreases before - i
  {
    if i < before {
      if !ms[i].role.Assistant? {
        NextExchangeFinds(ms, i + 1, before);
      } else {
        SkipToolsFinds(ms, i + 1);
      }
    }
  }

  lemma {:induction false} SkipToolsFinds(ms: seq<Message>, i: nat)
    requires i <= |ms|
    ensures var r := SkipTools(ms, i);
            && (forall j :: i <= j < r ==> ms[j].role.Tool?)
            && (r < |ms| ==> !ms[r].role.Tool?)
    decreases |ms| - i
  {
    if i < |ms| && ms[i].role.Tool? {
      SkipToolsFinds(ms, i + 1);
    }
  }

  // ---------------------------------------------------------------- surviving a rewrite

  /**
   * `ms'` comes from `ms` by weakening messages in place and removing whole exchanges:
   * an assistant message together with all the tool results behind it.
   */
  ghost predicate Survives(ms: seq<Message>, ms': seq<Message>)
    decreases |ms|
  {
    if ms == [] then ms' == []
    else
      || (ms' != [] && Weakened(ms[0], ms'[0]) && Survives(ms[1..], ms'[1..]))
      || (ms[0].role.Assistant? && Survives(ms[SkipTools(ms, 1)..], ms'))
  }

  lemma {:induction false} PointwiseSurvives(ms: seq<Message>, ms': seq<Message>)
    requires Pointwise(ms, ms')
    ensures Survives(ms, ms')
    decreases |ms|
  {
    if ms != [] {
      assert Weakened(ms[0], ms'[0]);
      PointwiseSurvives(ms[1..], ms'[1..]);
    }
  }

  lemma {:induction false} PointwiseSelf(ms: seq<Message>)
    ensures Pointwise(ms, ms)
  {
  }

  lemma {:induction false} SurvivesSelf(ms: seq<Message>)
    ensures Survives(ms, ms)
  {
    PointwiseSelf(ms);
    PointwiseSurvives(ms, ms);
  }

  lemma {:induction false} SkipToolsShift(ms: seq<Message>, k: nat, i: nat)
    requires k + i <= |ms|
    ensures SkipTools(ms, k + i) == k + SkipTools(ms[k..], i)
    decreases |ms| - i
  {
    if k + i < |ms| && ms[k + i].role.Tool? {
      SkipToolsShift(ms, k, i + 1);
    }
  }

  /** What follows a message that is not a tool result does not begin with one either. */
  lemma {:induction false} SurvivesHead(ms: seq<Message>, ms': seq<Message>)
    requires Survives(ms, ms') && ms != [] && !ms[0].role.Tool?
    ensures ms' != [] ==> !ms'[0].role.Tool?
    decreases |ms|
  {
    if !(ms' != [] && Weakened(ms[0], ms'[0]) && Survives(ms[1..], ms'[1..])) {
      var rest := ms[SkipTools(ms, 1)..];
      SkipToolsFinds(ms, 1);
      if rest != [] {
        SurvivesHead(rest, ms');
      }
    }
  }

  /** The results behind an assistant message survive one for one. */
  lemma {:induction false} SurvivesSkip(ms: seq<Message>, ms': seq<Message>)
    requires Survives(ms, ms')
    ensures Survives(ms[SkipTools(ms, 0)..], ms'[SkipTools(ms', 0)..])
    decreases |ms|
  {
    if ms == [] {
    } else if ms[0].role.Tool? {
      SurvivesSkip(ms[1..], ms'[1..]);
      SkipToolsShift(ms, 1, 0);
      SkipToolsShift(ms', 1, 0);
      DropDrop(ms, 1, SkipTools(ms[1..], 0));
      DropDrop(ms', 1, SkipTools(ms'[1..], 0));
    } else {
      SurvivesHead(ms, ms');
      DropNone(ms);
      DropNone(ms');
    }
  }

  lemma {:induction false} SurvivesTransitive(a: seq<Message>, b: seq<Message>, c: seq<Message>)
    requires Survives(a, b) && Survives(b, c)
    ensures Survives(a, c)
    decreases |a|
  {
    if a == [] {
    } else if a[0].role.Assistant? && Survives(a[SkipTools(a, 1)..], b) {
      SurvivesTransitive(a[SkipTools(a, 1)..], b, c);
    } else if c != [] && Weakened(b[0], c[0]) && Survives(b[1..], c[1..]) {
      WeakenedTransitive(a[0], b[0], c[0]);
      SurvivesTransitive(a[1..], b[1..], c[1..]);
    } else {
      SurvivesSkip(a[1..], b[1..]);
      SkipToolsShift(a, 1, 0);
      SkipToolsShift(b, 1, 0);
      DropDrop(a, 1, SkipTools(a[1..], 0));
      DropDrop(b, 1, SkipTools(b[1..], 0));
      SurvivesTransitive(a[SkipTools(a, 1)..], b[SkipTools(b, 1)..], c);
    }
  }

  lemma {:induction false} DropNone<T>(s: seq<T>)
    ensures s[0..] == s
  {
  }

  lemma {:induction false} SurvivesStanding(ms: seq<Message>, ms': seq<Message>)
    requires Survives(ms, ms')
    ensures StandingOf(ms') == StandingOf(ms)
    decreases |ms|
  {
    hide SkipTools;
    if ms != [] {
      if ms' != [] && Weakened(ms[0], ms'[0]) && Survives(ms[1..], ms'[1..]) {
        SurvivesStanding(ms[1..], ms'[1..]);
      } else {
        var e := SkipTools(ms, 1);
        SurvivesStanding(ms[e..], ms');
        SkipToolsFinds(ms, 1);
        NoneStanding(ms[..e]);
        StandingConcat(ms[..e], ms[e..]);
        assert ms[..e] + ms[e..] == ms;
      }
    }
  }

  lemma {:induction false} NoneStanding(ms: seq<Message>)
    requires forall i :: 0 <= i < |ms| ==> !Standing(ms[i])
    ensures StandingOf(ms) == []
  {
    if ms != [] {
      NoneStanding(ms[1..]);
    }
  }

  lemma {:induction false} CutTail<T>(s: seq<T>, a: nat, b: nat)
    requires 1 <= a <= b <= |s|
    ensures (s[..a] + s[b..])[1..] == s[1..][..a - 1] + s[1..][b - 1..]
    ensures (s[..a] + s[b..])[0] == s[0]
  {
  }

  /** Removing one whole exchange. */
  lemma {:induction false} SurvivesCut(ms: seq<Message>, start: nat, cut: seq<Message>)
    requires start < |ms| && ms[start].role.Assistant?
    requires cut == ms[..start] + ms[SkipTools(ms, start + 1)..]
    ensures Survives(ms, cut)
    decreases start
  {
    var e := SkipTools(ms, start + 1);
    if start == 0 {
      AppendNil(ms[e..]);
      SurvivesSelf(cut);
    } else {
      SkipToolsShift(ms, 1, start);
      CutTail(ms, start, e);
      SurvivesCut(ms[1..], start - 1, cut[1..]);
    }
  }

  // ---------------------------------------------------------------- thinning between two anchors

  /**
   * Only the stretch `[from, latest)` loses messages, and only whole exchanges; what
   * lies before and behind it is at most weakened in place.
   */
  ghost predicate Thinned(ms: seq<Message>, ms': seq<Message>, from: nat, latest: nat) {
    && from <= latest <= |ms|
    && 0 <= |ms| - |ms'| <= latest - from
    && Pointwise(ms[..from], ms'[..from])
    && Survives(ms[from..latest], ms'[from..latest - (|ms| - |ms'|)])
    && Pointwise(ms[latest..], ms'[latest - (|ms| - |ms'|)..])
  }

  lemma {:induction false} PointwiseThinned(ms: seq<Message>, ms': seq<Message>, from: nat, latest: nat)
    requires Pointwise(ms, ms') && from <= latest <= |ms|
    ensures Thinned(ms, ms', from, latest)
  {
    PointwiseSurvives(ms[from..latest], ms'[from..latest]);
  }

  lemma {:induction false} ThinnedSelf(ms: seq<Message>, from: nat, latest: nat)
    requires from <= latest <= |ms|
    ensures Thinned(ms, ms, from, latest)
  {
    PointwiseThinned(ms, ms, from, latest);
  }

  lemma {:induction false} ThinnedTransitive(
    a: seq<Message>, b: seq<Message>, c: seq<Message>, from: nat, latest: nat)
    requires Thinned(a, b, from, latest)
    requires Thinned(b, c, from, latest - (|a| - |b|))
    ensures Thinned(a, c, from, latest)
  {
    var l1, l2 := latest - (|a| - |b|), latest - (|a| - |c|);
    PointwiseTransitive(a[..from], b[..from], c[..from]);
    PointwiseTransitive(a[latest..], b[l1..], c[l2..]);
    SurvivesTransitive(a[from..latest], b[from..l1], c[from..l2]);
  }

  lemma {:induction false} ThinnedStanding(ms: seq<Message>, ms': seq<Message>, from: nat, latest: nat)
    requires Thinned(ms, ms', from, latest)
    ensures StandingOf(ms') == StandingOf(ms)
  {
    var l := latest - (|ms| - |ms'|);
    PointwiseSurvives(ms[..from], ms'[..from]);
    PointwiseSurvives(ms[latest..], ms'[l..]);
    SurvivesStanding(ms[..from], ms'[..from]);
    SurvivesStanding(ms[from..latest], ms'[from..l]);
    SurvivesStanding(ms[latest..], ms'[l..]);
    StandingThirds(ms, from, latest);
    StandingThirds(ms', from, l);
  }

  lemma {:induction false} StandingThirds(ms: seq<Message>, i: nat, j: nat)
    requires i <= j <= |ms|
    ensures StandingOf(ms) == StandingOf(ms[..i]) + StandingOf(ms[i..j]) + StandingOf(ms[j..])
  {
    StandingConcat(ms[..j], ms[j..]);
    assert ms[..j] + ms[j..] == ms;
    StandingConcat(ms[..i], ms[i..j]);
    assert ms[..i] + ms[i..j] == ms[..j];
  }

  // ---------------------------------------------------------------- dropping steps

  lemma {:induction false} CutRegion<T>(s: seq<T>, a: nat, b: nat, from: nat, latest: nat)
    requires from <= a <= b <= latest <= |s|
    ensures var r, mid := Cut(s, a, b), s[from..latest];
            && r[..from] == s[..from]
            && r[from..latest - (b - a)] == Cut(mid, a - from, b - from)
            && r[latest - (b - a)..] == s[latest..]
  {
    var r, mid, d := Cut(s, a, b), s[from..latest], b - a;
    CutAt(s, a, b);
    CutAt(mid, a - from, b - from);
    var x, y := r[from..latest - d], Cut(mid, a - from, b - from);
    forall j | 0 <= j < |x|
      ensures x[j] == y[j]
    {
      assert x[j] == r[from + j];
      if j < a - from {
        assert y[j] == mid[j] == s[from + j];
      } else {
        assert y[j] == mid[j + d] == s[from + j + d];
      }
    }
    assert r[latest - d..] == s[latest..];
  }

  lemma {:induction false} SkipToolsUnique(ms: seq<Message>, i: nat, r: nat)
    requires i <= r <= |ms|
    requires forall j :: i <= j < r ==> ms[j].role.Tool?
    requires r < |ms| ==> !ms[r].role.Tool?
    ensures SkipTools(ms, i) == r
  {
    SkipToolsFinds(ms, i);
  }

  lemma {:induction false} SkipToolsWithin(ms: seq<Message>, i: nat, latest: nat)
    requires i <= latest <= |ms| && SkipTools(ms, i) <= latest
    ensures SkipTools(ms[..latest], i) == SkipTools(ms, i)
  {
    SkipToolsFinds(ms, i);
    SkipToolsUnique(ms[..latest], i, SkipTools(ms, i));
  }

  /** An exchange is one within any stretch that holds all of it. */
  lemma {:induction false} ExchangeWithin(
    ms: seq<Message>, start: nat, end: nat, from: nat, latest: nat)
    requires ExchangeIn(ms, start, end, from, latest)
    ensures Exchange(ms[from..latest], start - from, end - from)
  {
    SkipToolsWithin(ms, start + 1, latest);
    SkipToolsShift(ms[..latest], from, start + 1 - from);
    assert ms[..latest][from..] == ms[from..latest];
  }

  lemma {:induction false} CutThins(
    ms: seq<Message>, start: nat, end: nat, from: nat, latest: nat)
    requires ExchangeIn(ms, start, end, from, latest)
    ensures Thinned(ms, Cut(ms, start, end), from, latest)
  {
    hide Survives, SkipTools, Weakened;
    ExchangeWithin(ms, start, end, from, latest);
    SurvivesCut(ms[from..latest], start - from, Cut(ms[from..latest], start - from, end - from));
    CutRegion(ms, start, end, from, latest);
    PointwiseSelf(ms[..from]);
    PointwiseSelf(ms[latest..]);
  }

  lemma {:induction false} CutShrinks(ms: seq<Message>, start: nat, end: nat)
    requires start <= end <= |ms|
    ensures Chars(Cut(ms, start, end)) + (end - start) <= Chars(ms)
  {
    CharsConcat(ms[..start], ms[end..]);
    CharsSplit(ms, end);
    CharsSplit(ms[..end], start);
    CharsAtLeastLength(ms[..end][start..]);
    assert ms[..end][..start] == ms[..start];
  }

  lemma {:induction false} CutWellFormed(ms: seq<Message>, start: nat, end: nat)
    requires Exchange(ms, start, end) && WellFormed(ms)
    ensures WellFormed(Cut(ms, start, end))
  {
    SkipToolsFinds(ms, start + 1);
    WellFormedCut(ms, start, end);
  }

  /** Whatever each single cut keeps, the whole drop loop keeps. */
  lemma {:induction false} DropOldestInduction(
    ms: seq<Message>, from: nat, before: nat, enough: seq<Message> -> bool,
    keeps: (seq<Message>, nat) -> bool)
    requires before <= |ms| && keeps(ms, before)
    requires forall x, b: nat, s: nat, e: nat ::
               keeps(x, b) && ExchangeIn(x, s, e, from, b) ==> keeps(Cut(x, s, e), b - (e - s))
    ensures var r := DropOldest(ms, from, before, enough);
            && keeps(r, before - (|ms| - |r|))
            && (enough(r) || NextExchange(r, from, before - (|ms| - |r|)).None?)
    decreases |ms|
  {
    hide NextExchange, SkipTools;
    var next := NextExchange(ms, from, before);
    if !enough(ms) && next.Some? {
      var (start, end) := next.value;
      NextExchangeFinds(ms, from, before);
      assert ExchangeIn(ms, start, end, from, before);
      DropOldestInduction(Cut(ms, start, end), from, before - (end - start), enough, keeps);
    }
  }

  lemma {:induction false} DropOldestThins(
    ms: seq<Message>, from: nat, before: nat, latest: nat, enough: seq<Message> -> bool)
    requires from <= latest && before <= latest <= |ms|
    ensures Thinned(ms, DropOldest(ms, from, before, enough), from, latest)
  {
    hide Pointwise, Survives, NextExchange, SkipTools;
    var keeps := (x: seq<Message>, b: nat) =>
      Thinned(ms, x, from, latest) && b == before - (|ms| - |x|);
    ThinnedSelf(ms, from, latest);
    forall x, b: nat, s: nat, e: nat | keeps(x, b) && ExchangeIn(x, s, e, from, b)
      ensures keeps(Cut(x, s, e), b - (e - s))
    {
      CutThins(x, s, e, from, latest - (|ms| - |x|));
      ThinnedTransitive(ms, x, Cut(x, s, e), from, latest);
    }
    DropOldestInduction(ms, from, before, enough, keeps);
  }

  lemma {:induction false} DropOldestFacts(
    ms: seq<Message>, from: nat, before: nat, enough: seq<Message> -> bool)
    requires before <= |ms|
    ensures var r := DropOldest(ms, from, before, enough);
            && Chars(r) + (|ms| - |r|) <= Chars(ms)
            && (|r| == |ms| ==> r == ms)
  {
    var keeps := (x: seq<Message>, b: nat) =>
      && Chars(x) + (|ms| - |x|) <= Chars(ms)
      && |x| <= |ms| && (|x| == |ms| ==> x == ms);
    forall x, b: nat, s: nat, e: nat | keeps(x, b) && ExchangeIn(x, s, e, from, b)
      ensures keeps(Cut(x, s, e), b - (e - s))
    {
      CutShrinks(x, s, e);
    }
    DropOldestInduction(ms, from, before, enough, keeps);
  }

  lemma {:induction false} DropOldestWellFormed(
    ms: seq<Message>, from: nat, before: nat, enough: seq<Message> -> bool)
    requires before <= |ms| && WellFormed(ms)
    ensures WellFormed(DropOldest(ms, from, before, enough))
  {
    var keeps := (x: seq<Message>, b: nat) => WellFormed(x);
    forall x, b: nat, s: nat, e: nat | keeps(x, b) && ExchangeIn(x, s, e, from, b)
      ensures keeps(Cut(x, s, e), b - (e - s))
    {
      CutWellFormed(x, s, e);
    }
    DropOldestInduction(ms, from, before, enough, keeps);
  }

  // ---------------------------------------------------------------- anchors

  /** The two positions between which exchanges may be dropped. */
  ghost predicate Anchored(ms: seq<Message>, from: nat, latest: nat) {
    latest == Latest(ms) && from == AfterUser(ms, latest)
  }

  lemma {:induction false} PointwiseAnchored(
    ms: seq<Message>, ms': seq<Message>, from: nat, latest: nat)
    requires Pointwise(ms, ms') && Anchored(ms, from, latest)
    ensures Anchored(ms', from, latest)
  {
    LastOfFinds(ms, Assistant, |ms|);
    LastOfFinds(ms, User, latest);
    LastOfUnique(ms', Assistant, |ms'|, LastOf(ms, Assistant, |ms|));
    LastOfUnique(ms', User, latest, from - 1);
  }

  lemma {:induction false} CutAt<T>(s: seq<T>, a: nat, b: nat)
    requires a <= b <= |s|
    ensures var r := Cut(s, a, b);
            && (forall j :: 0 <= j < a ==> r[j] == s[j])
            && (forall j :: a <= j < |r| ==> r[j] == s[j + (b - a)])
  {
  }

  lemma {:induction false} CutAnchored(
    ms: seq<Message>, start: nat, end: nat, from: nat, latest: nat)
    requires Anchored(ms, from, latest)
    requires Exchange(ms, start, end) && from <= start && end <= latest
    ensures Anchored(Cut(ms, start, end), from, latest - (end - start))
  {
    var r := Cut(ms, start, end);
    LastOfFinds(ms, Assistant, |ms|);
    LastOfFinds(ms, User, latest);
    CutAt(ms, start, end);
    LastOfUnique(r, Assistant, |r|, latest - (end - start));
    LastOfUnique(r, User, latest - (end - start), from - 1);
  }

  lemma {:induction false} DropOldestAnchored(
    ms: seq<Message>, from: nat, before: nat, latest: nat, enough: seq<Message> -> bool)
    requires Anchored(ms, from, latest) && before <= latest
    ensures var r := DropOldest(ms, from, before, enough);
            && Anchored(r, from, latest - (|ms| - |r|))
            && (enough(r) || NextExchange(r, from, before - (|ms| - |r|)).None?)
  {
    hide Latest, AfterUser, NextExchange, SkipTools;
    var keeps := (x: seq<Message>, b: nat) =>
      && b == before - (|ms| - |x|)
      && Anchored(x, from, latest - before + b);
    forall x, b: nat, s: nat, e: nat | keeps(x, b) && ExchangeIn(x, s, e, from, b)
      ensures keeps(Cut(x, s, e), b - (e - s))
    {
      CutAnchored(x, s, e, from, latest - before + b);
    }
    DropOldestInduction(ms, from, before, enough, keeps);
  }

  /** Nothing in front of `n` can be stubbed. */
  ghost predicate Inert(ms: seq<Message>, n: nat) {
    n <= |ms| && forall i :: 0 <= i < n ==> !Stubbable(ms[i], true)
  }

  lemma {:induction false} CutInert(ms: seq<Message>, start: nat, end: nat, n: nat)
    requires start <= end <= n && Inert(ms, n)
    ensures Inert(Cut(ms, start, end), n - (end - start))
  {
    CutAt(ms, start, end);
  }

  lemma {:induction false} DropOldestInert(
    ms: seq<Message>, from: nat, before: nat, enough: seq<Message> -> bool)
    requires Inert(ms, before)
    ensures var r := DropOldest(ms, from, before, enough); Inert(r, before - (|ms| - |r|))
  {
    var keeps := (x: seq<Message>, b: nat) => Inert(x, b);
    forall x, b: nat, s: nat, e: nat | keeps(x, b) && ExchangeIn(x, s, e, from, b)
      ensures keeps(Cut(x, s, e), b - (e - s))
    {
      CutInert(x, s, e, b);
    }
    DropOldestInduction(ms, from, before, enough, keeps);
  }

  // ---------------------------------------------------------------- the theorems

  /**
   * Nothing that compaction may remove is left: no message before the latest assistant
   * message can be stubbed, and no exchange lies between the last user message in front
   * of it and it.
   */
  ghost predicate NothingRemovable(ms: seq<Message>) {
    var latest := Latest(ms);
    && (forall i :: 0 <= i < latest ==> !Stubbable(ms[i], true))
    && (forall i :: AfterUser(ms, latest) <= i < latest ==> !ms[i].role.Assistant?)
  }

  lemma {:induction false} FirstPassFacts(ms: seq<Message>, plan: Plan)
    requires Compactable(ms)
    ensures var r := FirstPass(ms, plan);
            && Pointwise(ms, r.0)
            && Chars(r.0) + r.1 <= Chars(ms)
            && (r.1 == 0 ==> r.0 == ms)
            && forall i :: ProtectFrom(ms) <= i < |ms| ==> r.0[i] == ms[i]
  {
    PointwiseSelf(ms);
    if plan.crowded {
      var order := LargestFirst(Sizes(ms), ProtectFrom(ms));
      LargestFirstSorts(Sizes(ms), ProtectFrom(ms));
      StubInOrderFacts(ms, order, plan.relieved);
    }
  }

  lemma {:induction false} StubAndDropThins(
    ms: seq<Message>, from: nat, latest: nat, enough: seq<Message> -> bool)
    requires from <= latest <= |ms|
    ensures Thinned(ms, StubAndDrop(ms, from, latest, enough).0, from, latest)
  {
    var s := StubUpTo(ms, 0, latest, enough).0;
    StubUpToWeakens(ms, 0, latest, enough);
    PointwiseThinned(ms, s, from, latest);
    DropOldestThins(s, from, latest, latest, enough);
    ThinnedTransitive(ms, s, DropOldest(s, from, latest, enough), from, latest);
  }

  lemma {:induction false} SecondPassThins(
    ms: seq<Message>, protectFrom: nat, enough: seq<Message> -> bool, r: seq<Message>)
    requires r == SecondPass(ms, protectFrom, enough).0
    ensures Thinned(ms, r, AfterUser(ms, Latest(ms)), Latest(ms))
  {
    hide DropOldest, StubAndDrop, Pointwise, Survives, LastOf;
    var latest := Latest(ms);
    var from := AfterUser(ms, latest);
    var t := DropOldest(ms, from, Min(protectFrom, latest), enough);
    DropOldestThins(ms, from, Min(protectFrom, latest), latest, enough);
    StubAndDropThins(t, from, latest - (|ms| - |t|), enough);
    ThinnedTransitive(ms, t, r, from, latest);
  }

  lemma {:induction false} SecondPassShrinks(
    ms: seq<Message>, protectFrom: nat, enough: seq<Message> -> bool)
    ensures var r := SecondPass(ms, protectFrom, enough);
            && Chars(r.0) + r.1 <= Chars(ms)
            && (r.1 == 0 ==> r.0 == ms)
  {
    hide DropOldest, StubUpTo, LastOf, Chars;
    var latest := Latest(ms);
    var from := AfterUser(ms, latest);
    var t := DropOldest(ms, from, Min(protectFrom, latest), enough);
    var latest1 := latest - (|ms| - |t|);
    DropOldestFacts(ms, from, Min(protectFrom, latest), enough);
    StubUpToShrinks(t, 0, latest1, enough);
    DropOldestFacts(StubUpTo(t, 0, latest1, enough).0, from, latest1, enough);
  }

  lemma {:induction false} SecondPassWellFormed(
    ms: seq<Message>, protectFrom: nat, enough: seq<Message> -> bool)
    requires WellFormed(ms)
    ensures WellFormed(SecondPass(ms, protectFrom, enough).0)
  {
    var latest := Latest(ms);
    var from := AfterUser(ms, latest);
    var t := DropOldest(ms, from, Min(protectFrom, latest), enough);
    var latest1 := latest - (|ms| - |t|);
    var s := StubUpTo(t, 0, latest1, enough).0;
    DropOldestWellFormed(ms, from, Min(protectFrom, latest), enough);
    StubUpToWeakens(t, 0, latest1, enough);
    PointwiseWellFormed(t, s);
    DropOldestWellFormed(s, from, latest1, enough);
  }

  lemma {:induction false} NoneDroppable(ms: seq<Message>, from: nat, latest: nat)
    requires Anchored(ms, from, latest) && NextExchange(ms, from, latest).None?
    ensures forall i :: from <= i < latest ==> !ms[i].role.Assistant?
  {
    LastOfFinds(ms, Assistant, |ms|);
    NextExchangeFinds(ms, from, latest);
  }

  /** The last two loops leave nothing removable unless there is enough room. */
  lemma {:induction false} StubAndDropExhausts(
    ms: seq<Message>, from: nat, latest: nat, enough: seq<Message> -> bool)
    requires forall x, y :: enough(x) && Chars(y) <= Chars(x) ==> enough(y)
    requires Anchored(ms, from, latest)
    requires !enough(StubAndDrop(ms, from, latest, enough).0)
    ensures NothingRemovable(StubAndDrop(ms, from, latest, enough).0)
  {
    hide Weakened, Stubbable, NextExchange, SkipTools, DropOldest, StubUpTo, LastOf, Chars;
    var s := StubUpTo(ms, 0, latest, enough).0;
    var r := DropOldest(s, from, latest, enough);
    StubUpToWeakens(ms, 0, latest, enough);
    PointwiseAnchored(ms, s, from, latest);
    DropOldestAnchored(s, from, latest, latest, enough);
    DropOldestFacts(s, from, latest, enough);
    StubUpToExhausts(ms, 0, latest, enough);
    DropOldestInert(s, from, latest, enough);
    NoneDroppable(r, from, latest - (|s| - |r|));
  }

  lemma {:induction false} SecondPassExhausts(
    ms: seq<Message>, protectFrom: nat, enough: seq<Message> -> bool)
    requires forall x, y :: enough(x) && Chars(y) <= Chars(x) ==> enough(y)
    requires !enough(SecondPass(ms, protectFrom, enough).0)
    ensures NothingRemovable(SecondPass(ms, protectFrom, enough).0)
  {
    hide NothingRemovable, DropOldest, StubAndDrop, LastOf, Chars;
    var latest := Latest(ms);
    var from := AfterUser(ms, latest);
    var t := DropOldest(ms, from, Min(protectFrom, latest), enough);
    DropOldestAnchored(ms, from, Min(protectFrom, latest), latest, enough);
    StubAndDropExhausts(t, from, latest - (|ms| - |t|), enough);
  }

  /** Either way a compaction can end, what it returns is thinned. */
  lemma {:induction false} EitherEndThins(
    ms: seq<Message>, first: seq<Message>, protectFrom: nat,
    enough: seq<Message> -> bool, r: seq<Message>)
    requires Pointwise(ms, first)
    requires r == ms || r == first || r == SecondPass(first, protectFrom, enough).0
    ensures Thinned(ms, r, AfterUser(ms, Latest(ms)), Latest(ms))
  {
    var latest := Latest(ms);
    var from := AfterUser(ms, latest);
    PointwiseThinned(ms, first, from, latest);
    PointwiseAnchored(ms, first, from, latest);
    if r == ms {
      ThinnedSelf(ms, from, latest);
    } else if r != first {
      SecondPassThins(first, protectFrom, enough, r);
      ThinnedTransitive(ms, first, r, from, latest);
    }
  }

  /**
   * Compaction removes nothing but whole exchanges that lie between the last user message
   * in front of the latest assistant message and that message.
   */
  lemma {:induction false} CompactedThins(ms: seq<Message>, rq: Request)
    requires Compactable(ms) && ValidRequest(rq)
    ensures Thinned(ms, Compacted(ms, rq).0, AfterUser(ms, Latest(ms)), Latest(ms))
  {
    var plan := PlanFor(ms, rq);
    FirstPassFacts(ms, plan);
    EitherEndThins(ms, FirstPass(ms, plan).0, ProtectFrom(ms), plan.roomy, CompactedBy(ms, plan).0);
  }

  /** Every system and user message stays, unchanged and in order. */
  lemma {:induction false} CompactedKeepsStanding(ms: seq<Message>, rq: Request)
    requires Compactable(ms) && ValidRequest(rq)
    ensures StandingOf(Compacted(ms, rq).0) == StandingOf(ms)
  {
    CompactedThins(ms, rq);
    ThinnedStanding(ms, Compacted(ms, rq).0, AfterUser(ms, Latest(ms)), Latest(ms));
  }

  /** Every tool call that survives still has exactly its results behind it. */
  lemma {:induction false} CompactedWellFormed(ms: seq<Message>, rq: Request)
    requires Compactable(ms) && ValidRequest(rq) && WellFormed(ms)
    ensures WellFormed(Compacted(ms, rq).0)
  {
    var plan := PlanFor(ms, rq);
    var first := FirstPass(ms, plan).0;
    FirstPassFacts(ms, plan);
    PointwiseWellFormed(ms, first);
    SecondPassWellFormed(first, ProtectFrom(ms), plan.roomy);
  }

  lemma {:induction false} CompactedByMeasure(ms: seq<Message>, plan: Plan)
    requires Compactable(ms)
    ensures var r := CompactedBy(ms, plan);
            && Chars(r.0) + r.1 <= Chars(ms)
            && (r.1 == 0 <==> r.0 == ms)
  {
    hide FirstPass, SecondPass, ProtectFrom, Chars, Weakened;
    FirstPassFacts(ms, plan);
    SecondPassShrinks(FirstPass(ms, plan).0, ProtectFrom(ms), plan.roomy);
  }

  /**
   * The transcript shrinks by at least as many characters as the count says; a zero
   * count means it is untouched.
   */
  lemma {:induction false} CompactedMeasure(ms: seq<Message>, rq: Request)
    requires Compactable(ms) && ValidRequest(rq)
    ensures var r := Compacted(ms, rq);
            && Chars(r.0) + r.1 <= Chars(ms)
            && (r.1 == 0 <==> r.0 == ms)
  {
    CompactedByMeasure(ms, PlanFor(ms, rq));
  }

  /** What lies behind the stretch that may be dropped stays as it is. */
  lemma {:induction false} DropOldestKeepsTail(
    ms: seq<Message>, from: nat, before: nat, enough: seq<Message> -> bool)
    requires before <= |ms|
    ensures var r := DropOldest(ms, from, before, enough); r[before - (|ms| - |r|)..] == ms[before..]
  {
    var keeps := (x: seq<Message>, b: nat) =>
      b == before - (|ms| - |x|) && b <= |x| && x[b..] == ms[before..];
    forall x, b: nat, s: nat, e: nat | keeps(x, b) && ExchangeIn(x, s, e, from, b)
      ensures keeps(Cut(x, s, e), b - (e - s))
    {
      assert Cut(x, s, e)[b - (e - s)..] == x[b..];
    }
    DropOldestInduction(ms, from, before, enough, keeps);
  }

  /** The transcript when the second pass has dropped the oldest unprotected exchanges. */
  function FirstDrop(ms: seq<Message>, rq: Request): seq<Message>
    requires Compactable(ms) && ValidRequest(rq)
  {
    var plan := PlanFor(ms, rq);
    var first := FirstPass(ms, plan).0;
    var latest := Latest(first);
    DropOldest(first, AfterUser(first, latest), Min(ProtectFrom(ms), latest), plan.roomy)
  }

  lemma {:induction false} FirstDropKeepsRecent(ms: seq<Message>, rq: Request)
    requires Compactable(ms) && ValidRequest(rq)
    ensures var r, n := FirstDrop(ms, rq), |ms| - ProtectFrom(ms);
            n <= |r| && r[|r| - n..] == ms[ProtectFrom(ms)..]
  {
    hide DropOldest, FirstPass, ProtectFrom, AfterUser, Latest, Fits, Chars, Weakened;
    var plan := PlanFor(ms, rq);
    var first := FirstPass(ms, plan).0;
    var latest := Latest(first);
    FirstPassFacts(ms, plan);
    DropOldestKeepsTail(first, AfterUser(first, latest), Min(ProtectFrom(ms), latest), plan.roomy);
    TailsAgree(ms, first, FirstDrop(ms, rq), Min(ProtectFrom(ms), latest), ProtectFrom(ms));
  }

  lemma {:induction false} TailsAgree<T>(s: seq<T>, t: seq<T>, r: seq<T>, b: nat, p: nat)
    requires b <= p <= |s| == |t| && |s| - |r| <= b && |r| <= |s|
    requires forall i :: p <= i < |s| ==> t[i] == s[i]
    requires r[b - (|s| - |r|)..] == t[b..]
    ensures |s| - p <= |r| && r[|r| - (|s| - p)..] == s[p..]
  {
    var d := |s| - |r|;
    assert r[|r| - (|s| - p)..] == r[b - d..][p - b..] == t[b..][p - b..] == t[p..];
  }

  /**
   * As long as the first pass makes the request fit, or dropping the oldest exchanges in front
   * of them makes it fit well, the six newest tool results (and everything between and behind
   * them) are untouched.
   */
  lemma {:induction false} CompactedKeepsRecent(ms: seq<Message>, rq: Request)
    requires Compactable(ms) && ValidRequest(rq)
    requires Fits(FirstPass(ms, PlanFor(ms, rq)).0, rq, FIT_AT) || Fits(FirstDrop(ms, rq), rq, FIT_TO)
    ensures var r, n := Compacted(ms, rq).0, |ms| - ProtectFrom(ms);
            n <= |r| && r[|r| - n..] == ms[ProtectFrom(ms)..]
  {
    hide FirstDrop, DropOldest, ProtectFrom, StubInOrder;
    FirstPassFacts(ms, PlanFor(ms, rq));
    FirstDropKeepsRecent(ms, rq);
    CompactedWhen(ms, rq);
  }

  /** A compaction that ends after its first pass, or after its first drop. */
  lemma {:induction false} CompactedWhen(ms: seq<Message>, rq: Request)
    requires Compactable(ms) && ValidRequest(rq)
    ensures var first := FirstPass(ms, PlanFor(ms, rq)).0;
            if Fits(first, rq, FIT_AT) then Compacted(ms, rq).0 in {ms, first}
            else Fits(FirstDrop(ms, rq), rq, FIT_TO) ==> Compacted(ms, rq).0 == FirstDrop(ms, rq)
  {
  }

  // ---------------------------------------------------------------- who is protected

  /** The sixth-newest tool result, or the oldest if there are fewer. */
  function SixthNewest(ms: seq<Message>): (p: nat)
    requires ToolPositions(ms, 0) != []
    ensures p < |ms| && ms[p].role.Tool?
  {
    var tools := ToolPositions(ms, 0);
    tools[Max(0, |tools| - KEEP_RECENT)]
  }

  /** The message that made the call which the result at `p` answers. */
  ghost predicate Made(ms: seq<Message>, a: int, p: nat) {
    && 0 <= a < p < |ms| && ms[a].role.Assistant? && p - a - 1 < |ms[a].calls|
    && ms[p].callId == Some(ms[a].calls[p - a - 1].id)
  }

  /** In a well-formed conversation it is the last assistant message in front of the result. */
  lemma {:induction false} LastAssistantMade(ms: seq<Message>, p: nat)
    requires WellFormed(ms) && p < |ms| && ms[p].role.Tool?
    ensures Made(ms, LastOf(ms, Assistant, p), p)
    decreases |ms|
  {
    hide LastOf, Answers, Made;
    var n := Span(ms[0]);
    if p < n {
      FirstAssistantMade(ms, p);
    } else {
      LastAssistantMade(ms[n..], p - n);
      MadeInSuffix(ms, n, p - n);
    }
  }

  lemma {:induction false} MadeInSuffix(ms: seq<Message>, k: nat, n: nat)
    requires k + n <= |ms| && Made(ms[k..], LastOf(ms[k..], Assistant, n), n)
    ensures Made(ms, LastOf(ms, Assistant, k + n), k + n)
  {
    LastOfSuffix(ms, k, Assistant, n);
  }

  lemma {:induction false} FirstAssistantMade(ms: seq<Message>, p: nat)
    requires WellFormed(ms) && 0 < p < |ms| && p < Span(ms[0])
    ensures Made(ms, LastOf(ms, Assistant, p), p)
  {
    var results := ms[1..Span(ms[0])];
    forall j | 0 < j <= p
      ensures ms[j].role.Tool? && ms[j].callId == Some(ms[0].calls[j - 1].id)
    {
      assert ms[j] == results[j - 1];
    }
    LastOfUnique(ms, Assistant, p, 0);
  }

  lemma {:induction false} LastOfSuffix(ms: seq<Message>, k: nat, role: Role, n: nat)
    requires k + n <= |ms| && LastOf(ms[k..], role, n) >= 0
    ensures LastOf(ms, role, k + n) == k + LastOf(ms[k..], role, n)
  {
    if ms[k + n - 1].role != role {
      LastOfSuffix(ms, k, role, n - 1);
    }
  }

  /**
   * Protection begins one message in front of the sixth-newest result: the message that made
   * its call is protected if and only if the result directly follows it, being its first.
   */
  lemma {:induction false} MakerProtected(ms: seq<Message>, a: nat)
    requires WellFormed(ms) && ToolPositions(ms, 0) != []
    requires a == LastOf(ms, Assistant, SixthNewest(ms))
    ensures Made(ms, a, SixthNewest(ms))
    ensures ProtectFrom(ms) <= a <==> SixthNewest(ms) == a + 1
  {
    LastAssistantMade(ms, SixthNewest(ms));
  }

  /** Unless it stops early, the first pass then stubs the long arguments of that call's message. */
  lemma {:induction false} MakerStubbed(ms: seq<Message>, rq: Request, a: nat)
    requires WellFormed(ms) && ValidRequest(rq) && PastCompactAt(ms, rq) && ToolPositions(ms, 0) != []
    requires a == LastOf(ms, Assistant, SixthNewest(ms)) && SixthNewest(ms) != a + 1
    requires !RealCountUnderTarget(ms, FirstPass(ms, PlanFor(ms, rq)).0, rq)
    ensures var r := FirstPass(ms, PlanFor(ms, rq)).0[a];
            && |r.calls| == |ms[a].calls|
            && forall i :: 0 <= i < |r.calls| && BigArgs(ms[a].calls[i].args) ==> r.calls[i].args.ElidedArgs?
  {
    hide FirstPass, ToolPositions, SixthNewest, ProtectFrom, LastOf, HasBigArgs, Chars;
    var r := FirstPass(ms, PlanFor(ms, rq)).0;
    MakerProtected(ms, a);
    FirstPassFacts(ms, PlanFor(ms, rq));
    FirstPassRelieves(ms, rq);
    assert Weakened(ms[a], r[a]) && !Stubbable(r[a], false);
    NoBigArgs(r[a].calls);
  }

  lemma {:induction false} NoBigArgs(calls: seq<ToolCall>)
    requires !HasBigArgs(calls)
    ensures forall i :: 0 <= i < |calls| ==> !BigArgs(calls[i].args)
  {
    if calls != [] {
      NoBigArgs(calls[1..]);
    }
  }

  lemma {:induction false} ToolTail(ms: seq<Message>, i: nat)
    requires i <= |ms| && forall j :: i <= j < |ms| ==> ms[j].role.Tool?
    ensures |ToolPositions(ms, i)| == |ms| - i
    ensures forall j :: 0 <= j < |ms| - i ==> ToolPositions(ms, i)[j] == i + j
    decreases |ms| - i
  {
    if i < |ms| {
      ToolTail(ms, i + 1);
    }
  }

  /** A question, then seven calls with long arguments in one message, and their results. */
  function SevenCalls(): seq<ToolCall> {
    seq(7, i requires 0 <= i < 7 => ToolCall(Decimal(i), "search", Json(seq(201, k => 'x'), false)))
  }

  function SevenResults(): seq<Message> {
    seq(7, i requires 0 <= i < 7 => Message(Tool, Text("ok"), [], Some(Decimal(i)), Some("search")))
  }

  function SevenAtOnce(): seq<Message> {
    [Message(User, Text("?"), [], None, None), Message(Assistant, Text(""), SevenCalls(), None, None)]
    + SevenResults()
  }

  lemma {:induction false} SevenAtOnceFacts()
    ensures WellFormed(SevenAtOnce()) && ToolPositions(SevenAtOnce(), 0) != []
    ensures SixthNewest(SevenAtOnce()) == 3 && LastOf(SevenAtOnce(), Assistant, 3) == 1
    ensures ProtectFrom(SevenAtOnce()) == 2
  {
    hide Decimal;
    var ms := SevenAtOnce();
    var exchange := ms[1..];
    assert exchange[1..] == SevenResults();
    WellFormedCons(exchange, []);
    assert exchange + [] == exchange;
    ToolTail(ms, 2);
    var tools := ToolPositions(ms, 2);
    assert [] + tools == tools;
    assert ToolPositions(ms, 1) == tools && ToolPositions(ms, 0) == tools;
    LastOfUnique(ms, Assistant, 3, 1);
  }

  /** The first pass keeps the result at `p`, but not the arguments of the call it answers. */
  ghost predicate LosesArguments(ms: seq<Message>, rq: Request, a: nat, p: nat)
    requires WellFormed(ms) && ValidRequest(rq)
  {
    var r, i := FirstPass(ms, PlanFor(ms, rq)).0, p - a - 1;
    && Made(ms, a, p) && r[p] == ms[p] && |r[a].calls| == |ms[a].calls|
    && ms[a].calls[i].args.Json? && r[a].calls[i].args.ElidedArgs?
  }

  /** This can happen to the sixth-newest result, which is protected itself. */
  lemma {:induction false} SomeMakerStubbed()
    ensures exists ms: seq<Message>, rq: Request, a: nat, p: nat ::
              && WellFormed(ms) && ValidRequest(rq) && ToolPositions(ms, 0) != []
              && p == SixthNewest(ms) && LosesArguments(ms, rq, a, p)
  {
    hide FirstPass, WellFormed, ToolPositions, SixthNewest, ProtectFrom, LastOf, HasBigArgs, Decimal, Chars;
    SevenAtOnceFacts();
    var ms, rq := SevenAtOnce(), Request(0, 1.0, Some(1), 0, 0);
    var r := FirstPass(ms, PlanFor(ms, rq)).0;
    FirstPassFacts(ms, PlanFor(ms, rq));
    NoRelief(r, rq);
    MakerProtected(ms, 1);
    MakerStubbed(ms, rq, 1);
    assert BigArgs(ms[1].calls[1].args);
    assert LosesArguments(ms, rq, 1, 3);
  }

  /** With no window at all, no transcript is ever small enough. */
  lemma {:induction false} NoRelief(ms: seq<Message>, rq: Request)
    requires ms != [] && rq.window == 0 && rq.ratio == 1.0
    ensures Estimate(ms, rq) as real > Target(rq)
  {
    CharsAtLeastLength(ms);
    TimesIsProduct(Chars(ms) + rq.schemaChars, 1.0);
  }

  lemma {:induction false} CompactedByExhausts(ms: seq<Message>, plan: Plan)
    requires Compactable(ms)
    requires forall x, y :: plan.roomy(x) && Chars(y) <= Chars(x) ==> plan.roomy(y)
    requires forall x :: plan.roomy(x) ==> plan.snug(x)
    requires !plan.snug(CompactedBy(ms, plan).0)
    ensures NothingRemovable(CompactedBy(ms, plan).0)
  {
    SecondPassExhausts(FirstPass(ms, plan).0, ProtectFrom(ms), plan.roomy);
  }

  /** If the request still does not fit afterwards, nothing removable is left. */
  lemma {:induction false} CompactedExhausts(ms: seq<Message>, rq: Request)
    requires Compactable(ms) && ValidRequest(rq)
    requires !Fits(Compacted(ms, rq).0, rq, FIT_AT)
    ensures NothingRemovable(Compacted(ms, rq).0)
  {
    var plan := PlanFor(ms, rq);
    forall x, y | plan.roomy(x) && Chars(y) <= Chars(x)
      ensures plan.roomy(y)
    {
      FitsMonotone(x, y, rq, FIT_TO);
    }
    forall x | plan.roomy(x)
      ensures plan.snug(x)
    {
      FitsTighter(x, rq);
    }
    CompactedByExhausts(ms, plan);
  }

  /**
   * After the first pass of a crowded prompt, either the characters it freed bring the
   * larger of the real and the estimated count under `COMPACT_TO`, or no unprotected
   * message is left to stub.
   */
  lemma {:induction false} FirstPassRelieves(ms: seq<Message>, rq: Request)
    requires Compactable(ms) && ValidRequest(rq) && PastCompactAt(ms, rq)
    ensures var r := FirstPass(ms, PlanFor(ms, rq)).0;
            || RealCountUnderTarget(ms, r, rq)
            || forall i :: 0 <= i < ProtectFrom(ms) ==> !Stubbable(r[i], false)
  {
    var plan := PlanFor(ms, rq);
    var r := FirstPass(ms, plan).0;
    FirstPassStops(ms, plan);
    if plan.relieved(r) {
      EnoughRemovedMeans(ms, r, rq);
    }
  }

  /** What is left of a count of `over` tokens when `removed` characters go. */
  function Remaining(over: int, removed: int, rq: Request): real {
    over as real - removed as real * rq.ratio
  }

  /** The last count, or the estimate if that is more, less what went, and the new estimate: both within 45 %. */
  ghost predicate RealCountUnderTarget(ms: seq<Message>, r: seq<Message>, rq: Request) {
    var gone := (Chars(ms) - Chars(r)) as real * rq.ratio;
    && Estimate(ms, rq) as real - gone <= 0.45 * rq.window as real
    && (rq.lastInput.Some? ==> rq.lastInput.value as real - gone <= 0.45 * rq.window as real)
    && Estimate(r, rq) as real <= 0.45 * rq.window as real
  }

  lemma {:induction false} FirstPassStops(ms: seq<Message>, plan: Plan)
    requires Compactable(ms) && plan.crowded
    ensures var r := FirstPass(ms, plan).0;
            || plan.relieved(r)
            || forall i :: 0 <= i < ProtectFrom(ms) ==> !Stubbable(r[i], false)
  {
    LargestFirstSorts(Sizes(ms), ProtectFrom(ms));
    StubInOrderExhausts(ms, LargestFirst(Sizes(ms), ProtectFrom(ms)), plan.relieved);
  }

  lemma {:induction false} EnoughRemovedMeans(ms: seq<Message>, r: seq<Message>, rq: Request)
    requires ValidRequest(rq) && EnoughRemoved(ms, r, rq)
    ensures RealCountUnderTarget(ms, r, rq)
  {
    hide Estimate, Chars, RemovedEnough;
    RemovedEnoughMeans(Over(ms, rq), Chars(ms) - Chars(r), rq);
  }

  lemma {:induction false} RemovedEnoughMeans(over: int, removed: int, rq: Request)
    requires ValidRequest(rq) && RemovedEnough(over, removed, rq)
    ensures Remaining(over, removed, rq) <= Target(rq)
  {
    var x := (over as real - Target(rq)) / rq.ratio;
    assert x * rq.ratio == over as real - Target(rq);
    ScaleMonotone(x, removed as real, rq.ratio);
  }

  /** The requests compaction leaves alone: those it finds under both thresholds. */
  lemma {:induction false} CompactedIdle(ms: seq<Message>, rq: Request)
    requires Compactable(ms) && ValidRequest(rq)
    requires Compacted(ms, rq).1 == 0
    ensures Fits(ms, rq, FIT_AT) || NothingRemovable(ms)
  {
    CompactedMeasure(ms, rq);
    if !Fits(ms, rq, FIT_AT) {
      CompactedExhausts(ms, rq);
    }
  }
}
