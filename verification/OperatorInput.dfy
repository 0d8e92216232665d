/** The poller that turns the rows of an annotation into operator texts, each once. */
module OperatorInput {
  import opened Common

  /** A row with a text, or with anything else where the text should be. */
  datatype Row = Row(text: Option<string>)

  /** What reading the task finds: nothing, rows, some other JSON, or a failure to read or parse it. */
  datatype Reading = Absent | Rows(rows: seq<Row>) | NotRows | Fails

  /** What one poll gives: a rejection, or texts. */
  datatype PollOutcome = Rejected | Drained(texts: seq<string>)

  /** The texts that are not empty, in order. */
  function Texts(rows: seq<Row>): seq<string> {
    if rows == [] then []
    else
      var last := rows[|rows| - 1].text;
      Texts(rows[..|rows| - 1]) + (if last.Some? && last.value != "" then [last.value] else [])
  }

  /** One poll with a cursor: its outcome, and the cursor afterwards. */
  function PollOnce(delivered: nat, reading: Reading): (PollOutcome, nat) {
    match reading
    case Fails => (Rejected, delivered)
    case Rows(rows) =>
      if |rows| <= delivered then (Drained([]), delivered) else (Drained(Texts(rows[delivered..])), |rows|)
    case _ => (Drained([]), delivered)
  }

  /** All texts a number of polls deliver, and the cursor behind them. */
  function Polls(delivered: nat, readings: seq<Reading>): (seq<string>, nat) {
    if readings == [] then ([], delivered)
    else
      var n := |readings| - 1;
      var (before, cursor) := Polls(delivered, readings[..n]);
      var (polled, next) := PollOnce(cursor, readings[n]);
      (before + TextsOf(polled), next)
  }

  lemma {:induction false} TextsConcat(a: seq<Row>, b: seq<Row>)
    ensures Texts(a + b) == Texts(a) + Texts(b)
  {
    if b == [] {
      assert a + b == a;
    } else {
      assert (a + b)[..|a + b| - 1] == a + b[..|b| - 1];
      TextsConcat(a, b[..|b| - 1]);
    }
  }

  /** The rows with a text that is not empty, in order. */
  function Worded(rows: seq<Row>, i: nat): (at: seq<nat>)
    requires i <= |rows|
    ensures forall k :: 0 <= k < |at| ==> at[k] < i
    ensures forall j, k :: 0 <= j < k < |at| ==> at[j] < at[k]
  {
    if i == 0 then []
    else
      var text := rows[i - 1].text;
      Worded(rows, i - 1) + (if text.Some? && text.value != "" then [i - 1] else [])
  }

  /** These texts stand, in this order, in the rows at these positions below `i`, and in no others. */
  ghost predicate StandAt(rows: seq<Row>, i: nat, at: seq<nat>, texts: seq<string>)
    requires i <= |rows|
  {
    && |texts| == |at|
    && (forall k :: 0 <= k < |at| ==> at[k] < i && rows[at[k]].text == Some(texts[k]) && texts[k] != "")
    && (forall j :: 0 <= j < i ==> (j in at <==> rows[j].text.Some? && rows[j].text.value != ""))
  }

  /** The texts are those of the rows that have one, each once and in their order, and no others. */
  lemma {:induction false} TextsAre(rows: seq<Row>)
    ensures var at := Worded(rows, |rows|);
            && |Texts(rows)| == |at|
            && (forall k :: 0 <= k < |at| ==> rows[at[k]].text == Some(Texts(rows)[k]) && Texts(rows)[k] != "")
            && (forall i :: 0 <= i < |rows| ==> (i in at <==> rows[i].text.Some? && rows[i].text.value != ""))
  {
    TextsUntil(rows, |rows|);
    assert rows[..|rows|] == rows;
  }

  lemma {:induction false} TextsUntil(rows: seq<Row>, i: nat)
    requires i <= |rows|
    ensures StandAt(rows, i, Worded(rows, i), Texts(rows[..i]))
  {
    if i > 0 {
      hide StandAt;
      TextsUntil(rows, i - 1);
      assert rows[..i][..i - 1] == rows[..i - 1];
      var text := rows[i - 1].text;
      if text.Some? && text.value != "" {
        OneMoreStands(rows, i - 1, Worded(rows, i - 1), Texts(rows[..i - 1]));
      } else {
        NoMoreStands(rows, i - 1, Worded(rows, i - 1), Texts(rows[..i - 1]));
      }
    } else {
      NothingStands(rows);
    }
  }

  lemma {:induction false} NothingStands(rows: seq<Row>)
    ensures StandAt(rows, 0, [], [])
  {
  }

  lemma {:induction false} OneMoreStands(rows: seq<Row>, i: nat, at: seq<nat>, texts: seq<string>)
    requires i < |rows| && StandAt(rows, i, at, texts) && rows[i].text.Some? && rows[i].text.value != ""
    ensures StandAt(rows, i + 1, at + [i], texts + [rows[i].text.value])
  {
  }

  lemma {:induction false} NoMoreStands(rows: seq<Row>, i: nat, at: seq<nat>, texts: seq<string>)
    requires i < |rows| && StandAt(rows, i, at, texts) && (rows[i].text.Some? ==> rows[i].text.value == "")
    ensures StandAt(rows, i + 1, at + [], texts + [])
  {
    assert at + [] == at && texts + [] == texts;
  }

  /** The texts a poll brings. */
  function TextsOf(outcome: PollOutcome): seq<string> {
    match outcome
    case Rejected => []
    case Drained(texts) => texts
  }

  /** All texts the first `n` polls of a source bring. */
  function DeliveredBy(poll: nat -> PollOutcome, n: nat): seq<string> {
    if n == 0 then [] else DeliveredBy(poll, n - 1) + TextsOf(poll(n - 1))
  }

  /** A source that is the poller, over one reading of the task for each poll. */
  ghost predicate FromPoller(poll: nat -> PollOutcome, readings: seq<Reading>) {
    readings != [] ==>
      var n := |readings| - 1;
      && poll(n) == PollOnce(Polls(0, readings[..n]).1, readings[n]).0
      && FromPoller(poll, readings[..n])
  }

  lemma {:induction false} PollerDelivers(poll: nat -> PollOutcome, readings: seq<Reading>)
    requires FromPoller(poll, readings)
    ensures DeliveredBy(poll, |readings|) == Polls(0, readings).0
  {
    if readings != [] {
      PollerDelivers(poll, readings[..|readings| - 1]);
    }
  }

  /** Rows are only appended: whatever is read is the beginning of the final rows. */
  ghost predicate AppendOnly(readings: seq<Reading>, all: seq<Row>) {
    forall k :: 0 <= k < |readings| && readings[k].Rows? ==> readings[k].rows <= all
  }

  lemma {:induction false} PollDelivers(delivered: nat, reading: Reading, all: seq<Row>)
    requires delivered <= |all| && (reading.Rows? ==> reading.rows <= all)
    ensures var (polled, cursor) := PollOnce(delivered, reading);
            cursor <= |all| && Texts(all[..delivered]) + TextsOf(polled) == Texts(all[..cursor])
  {
    hide Texts;
    if reading.Rows? && |reading.rows| > delivered {
      var rows := reading.rows;
      assert all[..|rows|] == rows && rows[..delivered] == all[..delivered];
      assert rows == rows[..delivered] + rows[delivered..];
      TextsConcat(rows[..delivered], rows[delivered..]);
    } else {
      assert Texts(all[..delivered]) + [] == Texts(all[..delivered]);
    }
  }

  /** Polls deliver the texts of the rows up to the cursor, each once and in order. */
  lemma {:induction false} DeliversEachOnce(readings: seq<Reading>, all: seq<Row>)
    requires AppendOnly(readings, all)
    ensures var (texts, cursor) := Polls(0, readings);
            cursor <= |all| && texts == Texts(all[..cursor])
  {
    hide PollOnce, TextsOf;
    if readings != [] {
      var n := |readings| - 1;
      DeliversEachOnce(readings[..n], all);
      PollDelivers(Polls(0, readings[..n]).1, readings[n], all);
    }
  }

  /** A poll that is rejected, or finds nothing new, is as if it had not been made. */
  lemma {:induction false} RejectionLosesNothing(readings: seq<Reading>, reading: Reading)
    requires !reading.Rows?
    ensures Polls(0, readings + [reading]) == Polls(0, readings)
  {
    assert (readings + [reading])[..|readings|] == readings;
    var (texts, _) := Polls(0, readings);
    assert texts + [] == texts;
  }

  /** Once a read shows all rows, everything has been delivered. */
  lemma {:induction false} CatchesUp(readings: seq<Reading>, all: seq<Row>)
    requires AppendOnly(readings, all)
    ensures Polls(0, readings + [Rows(all)]) == (Texts(all), |all|)
  {
    hide Texts;
    assert (readings + [Rows(all)])[..|readings|] == readings;
    DeliversEachOnce(readings + [Rows(all)], all);
    DeliversEachOnce(readings, all);
    assert all[..|all|] == all;
  }

  /** The closure `buildOperatorInputPoller` returns, with its cursor. */
  class Poller {
    var delivered: nat

    constructor ()
      ensures delivered == 0
    {
      delivered := 0;
    }

    method Poll(reading: Reading) returns (polled: PollOutcome)
      modifies this
      ensures (polled, delivered) == PollOnce(old(delivered), reading)
    {
      match reading {
        case Fails => polled := Rejected;
        case Absent => polled := Drained([]);
        case NotRows => polled := Drained([]);
        case Rows(rows) =>
          if |rows| <= delivered {
            return Drained([]);
          }
          var news := rows[delivered..];
          delivered := |rows|;
          var texts := Keep(news);
          polled := Drained(texts);
      }
    }

    /** The `map` and `filter` over fresh rows. */
    static method Keep(rows: seq<Row>) returns (texts: seq<string>)
      ensures texts == Texts(rows)
    {
      texts := [];
      var k := 0;
      while k < |rows|
        invariant 0 <= k <= |rows| && texts == Texts(rows[..k])
      {
        assert rows[..k + 1][..k] == rows[..k];
        if rows[k].text.Some? && rows[k].text.value != "" {
          texts := texts + [rows[k].text.value];
        }
        k := k + 1;
      }
      assert rows[..|rows|] == rows;
    }
  }
}
