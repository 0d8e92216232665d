/** The transcript as a mutable list, and compaction working on it in place. */
module Transcripts {
  import opened Common
  import opened Conversation
  import opened Compaction

  lemma {:induction false} SecondPassIs(
    ms: seq<Message>, protectFrom: nat, enough: seq<Message> -> bool,
    t: seq<Message>, u: seq<Message>, n: nat)
    requires t == DropOldest(ms, AfterUser(ms, Latest(ms)), Min(protectFrom, Latest(ms)), enough)
    requires (u, n) == StubAndDrop(t, AfterUser(ms, Latest(ms)), Latest(ms) - (|ms| - |t|), enough)
    ensures SecondPass(ms, protectFrom, enough) == (u, |ms| - |t| + n)
  {
    hide DropOldest, StubAndDrop, LastOf;
  }

  class Transcript {
    var messages: seq<Message>

    constructor (initial: seq<Message>)
      ensures messages == initial
    {
      messages := initial;
    }

    method Push(m: Message)
      modifies this
      ensures messages == old(messages) + [m]
    {
      messages := messages + [m];
    }

    /** Stubs message `i` in place; tells whether it shrank. */
    method StubInPlace(i: nat, prose: bool) returns (shrank: bool)
      requires i < |messages|
      modifies this
      ensures shrank == Stubbable(old(messages)[i], prose)
      ensures messages == if shrank then old(messages)[i := Stub(old(messages)[i], prose)]
                          else old(messages)
    {
      shrank := Stubbable(messages[i], prose);
      if shrank {
        messages := messages[i := Stub(messages[i], prose)];
      }
    }

    /** Stubs the unprotected messages, largest first. */
    method StubLargest(order: seq<nat>, enough: seq<Message> -> bool) returns (compacted: nat)
      requires Below(order, |messages|)
      modifies this
      ensures (messages, compacted) == StubInOrder(old(messages), order, enough)
    {
      compacted := 0;
      ghost var goal := StubInOrder(messages, order, enough);
      var k := 0;
      while k < |order|
        invariant 0 <= k <= |order| && |messages| == |old(messages)|
        invariant var rest := StubInOrder(messages, order[k..], enough);
                  goal == (rest.0, rest.1 + compacted)
      {
        ghost var rest := order[k..];
        assert rest[0] == order[k] && rest[1..] == order[k + 1..];
        var shrank := StubInPlace(order[k], false);
        if shrank {
          compacted := compacted + 1;
          if enough(messages) {
            break;
          }
        }
        k := k + 1;
      }
    }

    /** Drops old exchanges of `[from, before)`; returns how many messages went. */
    method Drop(from: nat, before: nat, enough: seq<Message> -> bool) returns (dropped: nat)
      requires before <= |messages|
      modifies this
      ensures messages == DropOldest(old(messages), from, before, enough)
      ensures dropped == |old(messages)| - |messages|
    {
      dropped := 0;
      var limit := before;
      while !enough(messages)
        invariant 0 <= limit <= |messages|
        invariant dropped == |old(messages)| - |messages|
        invariant DropOldest(old(messages), from, before, enough)
               == DropOldest(messages, from, limit, enough)
        decreases |messages|
      {
        var start, end := FindExchange(from, limit);
        if start >= limit || end > limit {
          return;
        }
        messages := Cut(messages, start, end);
        limit := limit - (end - start);
        dropped := dropped + (end - start);
      }
    }

    /** The next assistant message and the end of the tool results behind it. */
    method FindExchange(from: nat, limit: nat) returns (start: nat, end: nat)
      requires limit <= |messages|
      ensures (start >= limit || end > limit) <==> NextExchange(messages, from, limit).None?
      ensures start < limit && end <= limit ==>
                NextExchange(messages, from, limit) == Some((start, end))
    {
      start := from;
      while start < limit && !messages[start].role.Assistant?
        invariant from <= start
        invariant NextExchange(messages, from, limit) == NextExchange(messages, start, limit)
      {
        start := start + 1;
      }
      end := start + 1;
      while end < |messages| && messages[end].role.Tool?
        invariant start + 1 <= end
        invariant start < |messages| ==> end <= |messages|
        invariant start < |messages| ==> SkipTools(messages, start + 1) == SkipTools(messages, end)
      {
        end := end + 1;
      }
    }

    /** Stubs everything in front of `latest`, oldest first, while the request does not fit. */
    method StubBefore(latest: nat, enough: seq<Message> -> bool) returns (compacted: nat)
      requires latest <= |messages|
      modifies this
      ensures (messages, compacted) == StubUpTo(old(messages), 0, latest, enough)
    {
      compacted := 0;
      var i := 0;
      while i < latest && !enough(messages)
        invariant 0 <= i <= latest && |messages| == |old(messages)|
        invariant var rest := StubUpTo(messages, i, latest, enough);
                  StubUpTo(old(messages), 0, latest, enough) == (rest.0, rest.1 + compacted)
      {
        var shrank := StubInPlace(i, true);
        if shrank {
          compacted := compacted + 1;
        }
        i := i + 1;
      }
    }

    /** Searches backwards for the last message of a role in front of `n`; -1 if there is none. */
    method FindLast(role: Role, n: nat) returns (i: int)
      requires n <= |messages|
      ensures i == LastOf(messages, role, n)
    {
      i := n - 1;
      while i >= 0 && messages[i].role != role
        invariant -1 <= i < n
        invariant LastOf(messages, role, n) == LastOf(messages, role, i + 1)
      {
        i := i - 1;
      }
    }

    method StubThenDrop(from: nat, latest: nat, enough: seq<Message> -> bool)
      returns (compacted: nat)
      requires latest <= |messages|
      modifies this
      ensures (messages, compacted) == StubAndDrop(old(messages), from, latest, enough)
    {
      var stubbed := StubBefore(latest, enough);
      var dropped := Drop(from, latest, enough);
      compacted := stubbed + dropped;
    }

    /** The latest assistant message, and the position behind the last user message before it. */
    method FindAnchors() returns (latest: nat, from: nat)
      ensures latest == Latest(messages) && from == AfterUser(messages, latest)
    {
      var last := FindLast(Assistant, |messages|);
      latest := Max(0, last);
      var user := FindLast(User, latest);
      from := user + 1;
    }

    /** Drops old exchanges, stubs everything before the latest one, drops again. */
    method ShrinkHard(protectFrom: nat, enough: seq<Message> -> bool) returns (compacted: nat)
      modifies this
      ensures (messages, compacted) == SecondPass(old(messages), protectFrom, enough)
    {
      hide DropOldest, StubAndDrop, SecondPass, LastOf;
      var latest, from := FindAnchors();
      var dropped := Drop(from, Min(protectFrom, latest), enough);
      ghost var ms := messages;
      var more := StubThenDrop(from, latest - dropped, enough);
      compacted := dropped + more;
      SecondPassIs(old(messages), protectFrom, enough, ms, messages, more);
    }

    /** Stubs in place until the last call's real count would be low enough, if it was too high. */
    method ShrinkSoft(plan: Plan) returns (compacted: nat)
      requires Compactable(messages)
      modifies this
      ensures (messages, compacted) == FirstPass(old(messages), plan)
    {
      compacted := 0;
      if plan.crowded {
        var order := LargestFirst(Sizes(messages), ProtectFrom(messages));
        compacted := StubLargest(order, plan.relieved);
      }
    }

    method CompactBy(plan: Plan) returns (compacted: nat)
      requires Compactable(messages)
      modifies this
      ensures (messages, compacted) == CompactedBy(old(messages), plan)
    {
      if !plan.crowded && plan.snug(messages) {
        return 0;
      }
      var protectFrom := ProtectFrom(messages);
      compacted := ShrinkSoft(plan);
      if !plan.snug(messages) {
        var more := ShrinkHard(protectFrom, plan.roomy);
        compacted := compacted + more;
      }
    }

    /** Compacts in place; returns how many messages were stubbed or dropped. */
    method Compact(rq: Request) returns (compacted: nat)
      requires ValidRequest(rq) && Compactable(messages)
      modifies this
      ensures (messages, compacted) == Compacted(old(messages), rq)
    {
      compacted := CompactBy(PlanFor(messages, rq));
    }
  }
}
