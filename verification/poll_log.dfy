/**
  The poll history of one feed: rows are added only when the state changes,
  equal failures are counted on the newest row, and a memo in the refresher
  skips the statement when it would do nothing.
 */
module PollLog {
  import opened Prelude

  datatype Row = Row(id: nat, at: int, ok: bool, error: string, repeated: nat)

  const MAX_ERROR: nat := 2000
  const MAX_ROWS: nat := 30

  function Cap(error: string): string {
    if |error| > MAX_ERROR then error[..MAX_ERROR] else error
  }

  /** ORDER BY at DESC, id DESC: a comes first. */
  predicate Newer(a: Row, b: Row) {
    a.at > b.at || (a.at == b.at && a.id > b.id)
  }

  /** The row LIMIT 1 picks. */
  ghost predicate IsLatest(rows: seq<Row>, i: nat) {
    i < |rows| && forall j :: 0 <= j < |rows| && j != i ==> Newer(rows[i], rows[j])
  }

  // -------------------------------------------------------------- the statement

  /** The same state as the newest row. */
  predicate Same(rows: seq<Row>, ok: bool, error: string) {
    rows != [] && rows[|rows| - 1].ok == ok && rows[|rows| - 1].error == error
  }

  /** OFFSET cap - 1 in the same statement: what stays besides the row just added. */
  function Trimmed(rows: seq<Row>): seq<Row> {
    if |rows| > MAX_ROWS - 1 then rows[|rows| - (MAX_ROWS - 1)..] else rows
  }

  /** RecordFeedPoll on rows kept oldest first. */
  function Recorded(rows: seq<Row>, nextId: nat, at: int, ok: bool, error: string): seq<Row> {
    if Same(rows, ok, Cap(error)) then
      if ok then rows
      else
        var last := rows[|rows| - 1];
        rows[|rows| - 1 := last.(at := at, repeated := last.repeated + 1)]
    else Trimmed(rows) + [Row(nextId, at, ok, Cap(error), 1)]
  }

  function NextId(rows: seq<Row>, nextId: nat, ok: bool, error: string): nat {
    if Same(rows, ok, Cap(error)) then nextId else nextId + 1
  }

  /** The cleanup statement: old rows go, but never the one with the highest id. */
  function Kept(rows: seq<Row>, before: int): seq<Row>
    decreases |rows|
  {
    if rows == [] then []
    else if rows[0].at < before && exists j :: 0 <= j < |rows| && rows[j].id > rows[0].id then Kept(rows[1..], before)
    else [rows[0]] + Kept(rows[1..], before)
  }

  // -------------------------------------------------------------- the invariant

  ghost predicate Ordered(rows: seq<Row>) {
    forall i, j :: 0 <= i < j < |rows| ==> rows[i].id < rows[j].id && rows[i].at <= rows[j].at
  }

  ghost predicate NeighboursDiffer(rows: seq<Row>) {
    forall i :: 0 <= i < |rows| - 1 ==> rows[i].ok != rows[i + 1].ok || rows[i].error != rows[i + 1].error
  }

  ghost predicate Good(rows: seq<Row>, nextId: nat) {
    && Ordered(rows) && NeighboursDiffer(rows) && |rows| <= MAX_ROWS
    && (forall i :: 0 <= i < |rows| ==> rows[i].id < nextId && (rows[i].ok ==> rows[i].error == ""))
  }

  /** In this order the newest row is the last one, and it has the highest id. */
  lemma LatestIsLast(rows: seq<Row>, i: nat)
    requires Ordered(rows) && rows != []
    ensures IsLatest(rows, i) <==> i == |rows| - 1
  {
    if i < |rows| - 1 {
      assert !Newer(rows[i], rows[|rows| - 1]);
    }
  }

  /**
    What a poll leaves: an equal success nothing, an equal failure a later time
    and a higher count on the newest row, and anything else a new row after the
    newest 29.
   */
  lemma RecordedIs(rows: seq<Row>, nextId: nat, at: int, ok: bool, error: string)
    ensures var after, next := Recorded(rows, nextId, at, ok, error), NextId(rows, nextId, ok, error);
            var text := if |error| > 2000 then error[..2000] else error;
            var n := |rows|;
            if n > 0 && rows[n - 1].ok == ok && rows[n - 1].error == text then
              && next == nextId && |after| == n && after[..n - 1] == rows[..n - 1]
              && after[n - 1] == if ok then rows[n - 1] else Row(rows[n - 1].id, at, false, text, rows[n - 1].repeated + 1)
            else
              && next == nextId + 1 && |after| == (if n < 30 then n + 1 else 30)
              && after == rows[n - (|after| - 1)..] + [Row(nextId, at, ok, text, 1)]
  {
  }

  lemma SuffixGood(rows: seq<Row>, nextId: nat, n: nat)
    requires Good(rows, nextId) && n <= |rows|
    ensures Good(rows[n..], nextId)
  {
  }

  lemma AppendGood(rows: seq<Row>, nextId: nat, row: Row)
    requires Good(rows, nextId) && |rows| < MAX_ROWS && row.id == nextId && (row.ok ==> row.error == "")
    requires forall i :: 0 <= i < |rows| ==> rows[i].at <= row.at
    requires rows != [] ==> rows[|rows| - 1].ok != row.ok || rows[|rows| - 1].error != row.error
    ensures Good(rows + [row], nextId + 1)
  {
  }

  lemma CountedGood(rows: seq<Row>, nextId: nat, at: int)
    requires Good(rows, nextId) && rows != [] && forall i :: 0 <= i < |rows| ==> rows[i].at <= at
    ensures var last := rows[|rows| - 1]; Good(rows[|rows| - 1 := last.(at := at, repeated := last.repeated + 1)], nextId)
  {
  }

  lemma RecordedKeepsGood(rows: seq<Row>, nextId: nat, at: int, ok: bool, error: string)
    requires Good(rows, nextId) && (ok ==> error == "") && forall i :: 0 <= i < |rows| ==> rows[i].at <= at
    ensures Good(Recorded(rows, nextId, at, ok, error), NextId(rows, nextId, ok, error))
    ensures forall i :: 0 <= i < |Recorded(rows, nextId, at, ok, error)| ==> Recorded(rows, nextId, at, ok, error)[i].at <= at
    ensures ok ==> Same(Recorded(rows, nextId, at, ok, error), true, "")
  {
    if Same(rows, ok, Cap(error)) {
      CountedGood(rows, nextId, at);
    } else {
      var cut := if |rows| > MAX_ROWS - 1 then |rows| - (MAX_ROWS - 1) else 0;
      SuffixGood(rows, nextId, cut);
      assert Trimmed(rows) == rows[cut..];
      AppendGood(Trimmed(rows), nextId, Row(nextId, at, ok, Cap(error), 1));
    }
  }

  /** Retention removes a prefix and keeps the newest row. */
  lemma {:induction false} KeptIsSuffix(rows: seq<Row>, before: int)
    requires Ordered(rows)
    ensures |Kept(rows, before)| <= |rows| && Kept(rows, before) == rows[|rows| - |Kept(rows, before)|..]
    ensures rows != [] ==> Kept(rows, before) != []
    decreases |rows|
  {
    if rows == [] {
    } else if rows[0].at < before && |rows| > 1 {
      assert rows[1].id > rows[0].id;
      KeptIsSuffix(rows[1..], before);
      var k := Kept(rows[1..], before);
      assert Kept(rows, before) == k;
      assert rows[1..][|rows| - 1 - |k|..] == rows[|rows| - |k|..];
    } else {
      KeptAll(rows[1..], before, rows[0].at);
      assert Kept(rows, before) == [rows[0]] + rows[1..] == rows;
    }
  }

  /** Exactly the rows from the cutoff on stay, and the newest one whatever its age. */
  lemma {:induction false} KeptIs(rows: seq<Row>, before: int, i: nat)
    requires Ordered(rows) && i < |rows|
    ensures |rows| - |Kept(rows, before)| <= i <==> rows[i].at >= before || i == |rows| - 1
    decreases |rows|
  {
    if rows[0].at < before && |rows| > 1 {
      assert rows[1].id > rows[0].id;
      KeptIsSuffix(rows[1..], before);
      if i > 0 {
        assert rows[1..][i - 1] == rows[i];
        KeptIs(rows[1..], before, i - 1);
      }
    } else {
      KeptAll(rows[1..], before, rows[0].at);
      assert rows[i].at >= rows[0].at;
    }
  }

  /** What is not older than a kept row is kept. */
  lemma {:induction false} KeptAll(rows: seq<Row>, before: int, at: int)
    requires Ordered(rows) && (at >= before || rows == []) && forall i :: 0 <= i < |rows| ==> rows[i].at >= at
    ensures Kept(rows, before) == rows
    decreases |rows|
  {
    if rows != [] {
      KeptAll(rows[1..], before, at);
      assert rows == [rows[0]] + rows[1..];
    }
  }

  // ------------------------------------------------------------------- the memo

  datatype Event =
    | Polled(at: int, ok: bool, error: string, wasHealthy: bool, up: bool)
    | Cleanup(before: int)

  datatype State = State(rows: seq<Row>, nextId: nat, okLogged: bool)

  /** recordPoll; wasHealthy says that the feed row had no last_error before the poll. */
  function WithMemo(s: State, ev: Event): State {
    match ev
    case Polled(at, ok, error, wasHealthy, up) =>
      if ok && wasHealthy && s.okLogged then s
      else if !up then s
      else State(Recorded(s.rows, s.nextId, at, ok, error), NextId(s.rows, s.nextId, ok, error), ok)
    case Cleanup(before) => s.(rows := Kept(s.rows, before))
  }

  function WithoutMemo(s: State, ev: Event): State {
    match ev
    case Polled(at, ok, error, wasHealthy, up) =>
      if !up then s else s.(rows := Recorded(s.rows, s.nextId, at, ok, error), nextId := NextId(s.rows, s.nextId, ok, error))
    case Cleanup(before) => s.(rows := Kept(s.rows, before))
  }

  function RunWith(s: State, run: seq<Event>): State
    decreases |run|
  {
    if run == [] then s else RunWith(WithMemo(s, run[0]), run[1..])
  }

  function RunWithout(s: State, run: seq<Event>): State
    decreases |run|
  {
    if run == [] then s else RunWithout(WithoutMemo(s, run[0]), run[1..])
  }

  /** Polls of one feed come one after another, and only a failure has an error text. */
  predicate InTime(run: seq<Event>, from: int)
    decreases |run|
  {
    run == [] ||
    (if run[0].Polled? then run[0].at >= from && (run[0].ok ==> run[0].error == "") && InTime(run[1..], run[0].at)
     else InTime(run[1..], from))
  }

  ghost predicate Sound(s: State, from: int) {
    && Good(s.rows, s.nextId) && (forall i :: 0 <= i < |s.rows| ==> s.rows[i].at <= from)
    && (s.okLogged ==> Same(s.rows, true, ""))
  }

  lemma StepSound(s: State, ev: Event, from: int)
    requires Sound(s, from) && (ev.Polled? ==> ev.at >= from && (ev.ok ==> ev.error == ""))
    ensures Sound(WithMemo(s, ev), if ev.Polled? then ev.at else from)
    ensures WithMemo(s, ev).rows == WithoutMemo(s, ev).rows && WithMemo(s, ev).nextId == WithoutMemo(s, ev).nextId
  {
    match ev
    case Polled(at, ok, error, wasHealthy, up) =>
      RecordedKeepsGood(s.rows, s.nextId, at, ok, error);
    case Cleanup(before) =>
      KeptIsSuffix(s.rows, before);
      SuffixGood(s.rows, s.nextId, |s.rows| - |Kept(s.rows, before)|);
  }

  lemma {:induction false} MemoIsInvisible(s: State, run: seq<Event>, from: int)
    requires Sound(s, from) && InTime(run, from)
    ensures RunWith(s, run).rows == RunWithout(s, run).rows && RunWith(s, run).nextId == RunWithout(s, run).nextId
    ensures Good(RunWith(s, run).rows, RunWith(s, run).nextId)
    decreases |run|
  {
    if run != [] {
      StepSound(s, run[0], from);
      var t := WithMemo(s, run[0]);
      MemoIsInvisible(t, run[1..], if run[0].Polled? then run[0].at else from);
      MemoFlagIrrelevant(WithoutMemo(s, run[0]), t, run[1..]);
    }
  }

  /** A run without the memo does not look at it. */
  lemma {:induction false} MemoFlagIrrelevant(a: State, b: State, run: seq<Event>)
    requires a.rows == b.rows && a.nextId == b.nextId
    ensures RunWithout(a, run).rows == RunWithout(b, run).rows && RunWithout(a, run).nextId == RunWithout(b, run).nextId
    decreases |run|
  {
    if run != [] {
      MemoFlagIrrelevant(WithoutMemo(a, run[0]), WithoutMemo(b, run[0]), run[1..]);
    }
  }

  /** From an empty log: the memo changes nothing, neighbours differ, and there are at most 30 rows. */
  lemma LogLaws(run: seq<Event>, from: int)
    requires InTime(run, from)
    ensures var s := RunWith(State([], 0, false), run);
            && s.rows == RunWithout(State([], 0, false), run).rows
            && NeighboursDiffer(s.rows) && |s.rows| <= MAX_ROWS
  {
    MemoIsInvisible(State([], 0, false), run, from);
  }

  // ----------------------------------------------------------------- in place

  class FeedPollLog {
    var rows: seq<Row>
    var nextId: nat
    var okLogged: bool

    constructor ()
      ensures rows == [] && nextId == 0 && !okLogged
    {
      rows, nextId, okLogged := [], 0, false;
    }

    function View(): State
      reads this
    {
      State(rows, nextId, okLogged)
    }

    method RecordFeedPoll(at: int, ok: bool, error: string)
      modifies this
      ensures rows == Recorded(old(rows), old(nextId), at, ok, error) && nextId == NextId(old(rows), old(nextId), ok, error)
      ensures okLogged == old(okLogged)
    {
      var text := if |error| > MAX_ERROR then error[..MAX_ERROR] else error;
      if |rows| > 0 && rows[|rows| - 1].ok == ok && rows[|rows| - 1].error == text {
        if !ok {
          var last := rows[|rows| - 1];
          rows := rows[|rows| - 1 := last.(at := at, repeated := last.repeated + 1)];
        }
        return;
      }
      if |rows| > MAX_ROWS - 1 {
        rows := rows[|rows| - (MAX_ROWS - 1)..];
      }
      rows := rows + [Row(nextId, at, ok, text, 1)];
      nextId := nextId + 1;
    }

    /** recordPoll: the rows afterwards are those of RecordFeedPoll, whatever the memo says. */
    method RecordPoll(at: int, ok: bool, error: string, wasHealthy: bool, up: bool)
      requires Sound(View(), at) && (ok ==> error == "")
      modifies this
      ensures Sound(View(), at)
      ensures rows == if up then Recorded(old(rows), old(nextId), at, ok, error) else old(rows)
    {
      StepSound(View(), Polled(at, ok, error, wasHealthy, up), at);
      if ok && wasHealthy {
        if okLogged {
          return;
        }
      }
      if !up {
        return;
      }
      RecordFeedPoll(at, ok, error);
      if ok {
        okLogged := true;
      } else {
        okLogged := false;
      }
    }
  }
}
