/**
  The end of a relay entry. Every successful delivery does two separate
  steps, "mark sent" and "on success"; deliveries of one entry run
  concurrently, so the steps of several of them interleave freely.
 */
module Relay {
  import opened Prelude
  import opened Catalog

  /** waiting: the rows that are marked sent and whose on-success step has not run yet. */
  datatype State = State(db: Db, waiting: set<int>)

  datatype Event =
    | Enqueue(log: int, row: Log)
    | MarkSent(ids: set<int>)
    | MarkFailed(id: int, next: int)
    | MarkDead(id: int)
    | Retry(id: int, now: int)
    | OnSuccess(id: int)

  function SetStatus(db: Db, ids: set<int>, status: LogStatus, next: Option<int>): Db {
    db.(logs := map l | l in db.logs :: if l in ids then db.logs[l].(status := status, nextRetryAt := next) else db.logs[l])
  }

  /**
    Only a claimed row, pending or failed, gets the outcome of a delivery; the
    rows of an entry are enqueued before any of them is settled.
   */
  predicate Enabled(s: State, ev: Event) {
    match ev
    case Enqueue(log, row) =>
      log !in s.db.logs && row.entry in s.db.entries && Unsettled(row) && forall l :: l in RowsOf(s.db, row.entry) ==> Unsettled(s.db.logs[l])
    case MarkSent(ids) => forall l :: l in ids ==> l in s.db.logs && Unsettled(s.db.logs[l])
    case MarkFailed(id, next) => id in s.db.logs && Unsettled(s.db.logs[id])
    case MarkDead(id) => id in s.db.logs && Unsettled(s.db.logs[id])
    case Retry(id, now) => id in s.db.logs && !s.db.logs[id].status.Sent?
    case OnSuccess(id) => id in s.waiting && id in s.db.logs
  }

  function Step(s: State, ev: Event): State
    requires Enabled(s, ev)
  {
    match ev
    case Enqueue(log, row) => s.(db := s.db.(logs := s.db.logs[log := row]))
    case MarkSent(ids) => State(SetStatus(s.db, ids, Sent, None), s.waiting + ids)
    case MarkFailed(id, next) => s.(db := SetStatus(s.db, {id}, Failed, Some(next)))
    case MarkDead(id) => s.(db := SetStatus(s.db, {id}, Dead, None))
    case Retry(id, now) => s.(db := SetStatus(s.db, {id}, Pending, Some(now)))
    case OnSuccess(id) => State(DeleteRelayEntry(s.db, s.db.logs[id].entry, id), s.waiting - {id})
  }

  predicate Runs(s: State, run: seq<Event>)
    decreases |run|
  {
    run == [] || (Enabled(s, run[0]) && Runs(Step(s, run[0]), run[1..]))
  }

  function After(s: State, run: seq<Event>): State
    requires Runs(s, run)
    decreases |run|
  {
    if run == [] then s else After(Step(s, run[0]), run[1..])
  }

  // ------------------------------------------------------------ the invariant

  function RowsOf(db: Db, entry: int): set<int> {
    set l | l in db.logs && db.logs[l].entry == entry
  }

  predicate AllSent(db: Db, entry: int) {
    forall l :: l in RowsOf(db, entry) ==> db.logs[l].status.Sent?
  }

  predicate Settled(db: Db, entry: int) {
    forall l :: l in RowsOf(db, entry) ==> !Unsettled(db.logs[l])
  }

  predicate WaitingSent(s: State) {
    forall l :: l in s.waiting ==> l in s.db.logs && s.db.logs[l].status.Sent?
  }

  /** Waiting rows are sent; and if all rows of the entry are sent, one of them waits. */
  predicate InvOf(s: State, e: int) {
    WaitingSent(s) && (e in s.db.entries && RowsOf(s.db, e) != {} && AllSent(s.db, e) ==> RowsOf(s.db, e) * s.waiting != {})
  }

  lemma SameRowsOf(db: Db, d: Db, entry: int)
    requires d.logs.Keys == db.logs.Keys && forall l :: l in db.logs ==> d.logs[l].entry == db.logs[l].entry
    ensures RowsOf(d, entry) == RowsOf(db, entry)
  {
    forall l ensures l in RowsOf(d, entry) <==> l in RowsOf(db, entry) {
      assert l in d.logs.Keys <==> l in db.logs.Keys;
    }
  }

  lemma StepKeepsWaiting(s: State, ev: Event)
    requires WaitingSent(s) && Enabled(s, ev)
    ensures WaitingSent(Step(s, ev))
  {
  }

  /** A new row is not sent. */
  lemma EnqueueKeeps(s: State, log: int, row: Log, e: int)
    requires InvOf(s, e) && Enabled(s, Enqueue(log, row))
    ensures InvOf(Step(s, Enqueue(log, row)), e)
  {
    var t := Step(s, Enqueue(log, row));
    if row.entry == e {
      assert log in RowsOf(t.db, e);
    } else {
      assert RowsOf(t.db, e) == RowsOf(s.db, e);
    }
  }

  /** Marking rows sent brings each of them into the waiting set. */
  lemma SentKeeps(s: State, ids: set<int>, e: int)
    requires InvOf(s, e) && Enabled(s, MarkSent(ids))
    ensures InvOf(Step(s, MarkSent(ids)), e)
  {
    var t := Step(s, MarkSent(ids));
    SameRowsOf(s.db, t.db, e);
    if RowsOf(t.db, e) * ids != {} {
      assert RowsOf(t.db, e) * ids <= RowsOf(t.db, e) * t.waiting;
    } else if AllSent(t.db, e) {
      forall l | l in RowsOf(s.db, e) ensures s.db.logs[l].status.Sent? {
        assert l in RowsOf(t.db, e) && l !in RowsOf(t.db, e) * ids;
        assert t.db.logs[l].status.Sent?;
      }
      assert RowsOf(s.db, e) * s.waiting <= RowsOf(t.db, e) * t.waiting;
    }
  }

  /** A row that fails, dies or is retried keeps its entry from being all sent. */
  lemma UnsentKeeps(s: State, id: int, status: LogStatus, next: Option<int>, e: int)
    requires InvOf(s, e) && id in s.db.logs && !s.db.logs[id].status.Sent? && !status.Sent?
    ensures InvOf(s.(db := SetStatus(s.db, {id}, status, next)), e)
  {
    var d := SetStatus(s.db, {id}, status, next);
    SameRowsOf(s.db, d, e);
    if AllSent(d, e) {
      forall l | l in RowsOf(s.db, e) ensures s.db.logs[l].status.Sent? {
        assert l in RowsOf(d, e) && d.logs[l].status.Sent?;
      }
    }
  }

  /** The step deletes the entry exactly when no row of it is pending or failed. */
  lemma OnSuccessDeletes(s: State, id: int)
    requires WaitingSent(s) && Enabled(s, OnSuccess(id))
    ensures var e := s.db.logs[id].entry; e in s.db.entries ==> (e !in Step(s, OnSuccess(id)).db.entries <==> Settled(s.db, e))
  {
    var e := s.db.logs[id].entry;
    if HeldByOther(s.db, e, id) {
      var l :| l in s.db.logs && l != id && s.db.logs[l].entry == e && Unsettled(s.db.logs[l]);
      assert l in RowsOf(s.db, e);
    }
  }

  lemma OnSuccessKeeps(s: State, id: int, e: int)
    requires InvOf(s, e) && Enabled(s, OnSuccess(id))
    ensures InvOf(Step(s, OnSuccess(id)), e)
  {
    var t := Step(s, OnSuccess(id));
    OnSuccessDeletes(s, id);
    assert RowsOf(t.db, e) == RowsOf(s.db, e);
    if e in t.db.entries && AllSent(t.db, e) && RowsOf(t.db, e) != {} {
      assert AllSent(s.db, e) && Settled(s.db, e);
      assert s.db.logs[id].entry != e && id !in RowsOf(s.db, e);
      assert RowsOf(t.db, e) * t.waiting == RowsOf(s.db, e) * s.waiting;
    }
  }

  lemma StepKeeps(s: State, ev: Event, e: int)
    requires InvOf(s, e) && Enabled(s, ev)
    ensures InvOf(Step(s, ev), e)
  {
    match ev
    case Enqueue(log, row) => EnqueueKeeps(s, log, row, e);
    case MarkSent(ids) => SentKeeps(s, ids, e);
    case MarkFailed(id, next) => UnsentKeeps(s, id, Failed, Some(next), e);
    case MarkDead(id) => UnsentKeeps(s, id, Dead, None, e);
    case Retry(id, now) => UnsentKeeps(s, id, Pending, Some(now), e);
    case OnSuccess(id) => OnSuccessKeeps(s, id, e);
  }

  lemma {:induction false} RunKeeps(s: State, run: seq<Event>, e: int)
    requires InvOf(s, e) && Runs(s, run)
    ensures InvOf(After(s, run), e)
    decreases |run|
  {
    if run != [] {
      StepKeeps(s, run[0], e);
      RunKeeps(Step(s, run[0]), run[1..], e);
    }
  }

  lemma {:induction false} RunKeepsWaiting(s: State, run: seq<Event>)
    requires WaitingSent(s) && Runs(s, run)
    ensures WaitingSent(After(s, run))
    decreases |run|
  {
    if run != [] {
      StepKeepsWaiting(s, run[0]);
      RunKeepsWaiting(Step(s, run[0]), run[1..]);
    }
  }

  /** None of the entry's rows is settled yet; those of other entries may be anywhere in their lives. */
  predicate FreshFor(s: State, e: int) {
    WaitingSent(s) && forall l :: l in RowsOf(s.db, e) ==> Unsettled(s.db.logs[l])
  }

  lemma FreshHolds(s: State, e: int)
    requires FreshFor(s, e)
    ensures InvOf(s, e)
  {
    if RowsOf(s.db, e) != {} {
      var l := Pick(RowsOf(s.db, e));
      assert !s.db.logs[l].status.Sent?;
    }
  }

  // --------------------------------------------------------------- the promises

  /** No step of any interleaving deletes an entry while one of its rows is pending or failed. */
  lemma NeverDeletedEarly(s: State, run: seq<Event>, ev: Event, e: int)
    requires WaitingSent(s) && Runs(s, run) && Enabled(After(s, run), ev)
    requires e in After(s, run).db.entries && e !in Step(After(s, run), ev).db.entries
    ensures ev.OnSuccess? && Settled(After(s, run).db, e) && After(s, run).db.logs[ev.id].entry == e
  {
    RunKeepsWaiting(s, run);
    if ev.OnSuccess? {
      OnSuccessDeletes(After(s, run), ev.id);
    }
  }

  predicate Quiet(s: State, e: int) {
    RowsOf(s.db, e) * s.waiting == {}
  }

  lemma StepKeepsHash(s: State, ev: Event, e: int)
    requires Enabled(s, ev) && e in s.db.entries && s.db.entries[e].hash != ""
    ensures var t := Step(s, ev);
            && (e in t.db.entries ==> t.db.entries[e] == s.db.entries[e])
            && (e !in t.db.entries ==> Seen(s.db.entries[e].feed, s.db.entries[e].hash) in t.db.dedup)
            && s.db.dedup <= t.db.dedup
  {
  }

  lemma {:induction false} HashSurvives(s: State, run: seq<Event>, e: int)
    requires Runs(s, run) && e in s.db.entries && s.db.entries[e].hash != ""
    ensures var t := After(s, run);
            && (e in t.db.entries ==> t.db.entries[e] == s.db.entries[e])
            && (e !in t.db.entries ==> Seen(s.db.entries[e].feed, s.db.entries[e].hash) in t.db.dedup)
    decreases |run|
  {
    if run != [] {
      StepKeepsHash(s, run[0], e);
      if e in Step(s, run[0]).db.entries {
        HashSurvives(Step(s, run[0]), run[1..], e);
      } else {
        DedupGrows(Step(s, run[0]), run[1..], e);
      }
    }
  }

  /** What is gone stays gone, and the dedup set only grows. */
  lemma {:induction false} DedupGrows(s: State, run: seq<Event>, e: int)
    requires Runs(s, run)
    ensures s.db.dedup <= After(s, run).db.dedup
    ensures e !in s.db.entries ==> e !in After(s, run).db.entries
    decreases |run|
  {
    if run != [] {
      DedupGrows(Step(s, run[0]), run[1..], e);
    }
  }

  /** When all rows of an entry are sent and their on-success steps have run, it is deleted and its hash known. */
  lemma DeletedOnceAllSent(s: State, run: seq<Event>, e: int)
    requires FreshFor(s, e) && Runs(s, run) && e in s.db.entries && s.db.entries[e].hash != ""
    requires RowsOf(After(s, run).db, e) != {} && AllSent(After(s, run).db, e) && Quiet(After(s, run), e)
    ensures e !in After(s, run).db.entries
    ensures Seen(s.db.entries[e].feed, s.db.entries[e].hash) in After(s, run).db.dedup
  {
    FreshHolds(s, e);
    RunKeeps(s, run, e);
    HashSurvives(s, run, e);
  }

  // ------------------------------------------------------------ when a row dies

  /** A manual retry of a row of the entry, or a row that is enqueued for it after all. */
  predicate Touches(db: Db, ev: Event, e: int) {
    (ev.Retry? && ev.id in RowsOf(db, e)) || (ev.Enqueue? && ev.row.entry == e)
  }

  predicate LeavesAlone(db: Db, run: seq<Event>, e: int) {
    forall i :: 0 <= i < |run| ==> !Touches(db, run[i], e)
  }

  /**
    Once every row is sent or dead, the fate of the entry is decided: it goes
    exactly when an on-success step of it is still to come. If the last row to
    settle died after the others had finished, nothing deletes the entry but
    retention.
   */
  lemma {:induction false} SettledFate(s: State, run: seq<Event>, e: int)
    requires WaitingSent(s) && Runs(s, run) && e in s.db.entries && Settled(s.db, e) && LeavesAlone(s.db, run, e)
    requires Quiet(After(s, run), e)
    ensures e in After(s, run).db.entries <==> Quiet(s, e)
    decreases |run|
  {
    if run != [] {
      var ev := run[0];
      var t := Step(s, ev);
      assert !Touches(s.db, run[0], e);
      StepKeepsWaiting(s, ev);
      UntouchedRows(s, ev, e);
      StillLeftAlone(s, run, e);
      if ev.OnSuccess? {
        OnSuccessDeletes(s, ev.id);
      }
      if e in t.db.entries {
        SettledFate(t, run[1..], e);
        QuietStays(s, ev, e);
      } else {
        DedupGrows(t, run[1..], e);
        assert ev.id in RowsOf(s.db, e) * s.waiting;
      }
    }
  }

  /** Steps that do not touch a settled entry leave its rows alone. */
  lemma UntouchedRows(s: State, ev: Event, e: int)
    requires Enabled(s, ev) && Settled(s.db, e) && !Touches(s.db, ev, e)
    ensures RowsOf(Step(s, ev).db, e) == RowsOf(s.db, e) && Settled(Step(s, ev).db, e)
  {
    var t := Step(s, ev);
    if !ev.Enqueue? {
      SameRowsOf(s.db, t.db, e);
    }
    forall l | l in RowsOf(t.db, e) ensures l in RowsOf(s.db, e) && t.db.logs[l] == s.db.logs[l] {
    }
  }

  lemma StillLeftAlone(s: State, run: seq<Event>, e: int)
    requires run != [] && Enabled(s, run[0]) && Settled(s.db, e) && LeavesAlone(s.db, run, e)
    ensures LeavesAlone(Step(s, run[0]).db, run[1..], e)
  {
    assert !Touches(s.db, run[0], e);
    UntouchedRows(s, run[0], e);
    forall i | 0 <= i < |run[1..]| ensures !Touches(Step(s, run[0]).db, run[1..][i], e) {
      assert run[1..][i] == run[i + 1] && !Touches(s.db, run[i + 1], e);
    }
  }

  /** While the entry is still there, no such step changes what waits for it. */
  lemma QuietStays(s: State, ev: Event, e: int)
    requires WaitingSent(s) && Enabled(s, ev) && Settled(s.db, e) && !Touches(s.db, ev, e)
    requires e in s.db.entries && e in Step(s, ev).db.entries
    ensures Quiet(Step(s, ev), e) <==> Quiet(s, e)
  {
    var t := Step(s, ev);
    UntouchedRows(s, ev, e);
    if ev.OnSuccess? {
      OnSuccessDeletes(s, ev.id);
      assert ev.id !in RowsOf(s.db, e);
    }
    if ev.MarkSent? {
      forall l | l in ev.ids ensures l !in RowsOf(s.db, e) {
      }
    }
    assert RowsOf(t.db, e) * t.waiting == RowsOf(s.db, e) * s.waiting;
  }

  function DyingLast(a: int, b: int): seq<Event> {
    [MarkSent({a}), OnSuccess(a), MarkDead(b)]
  }

  lemma ThreeSteps(s: State, r: seq<Event>)
    requires |r| == 3 && Enabled(s, r[0]) && Enabled(Step(s, r[0]), r[1]) && Enabled(Step(Step(s, r[0]), r[1]), r[2])
    ensures Runs(s, r) && After(s, r) == Step(Step(Step(s, r[0]), r[1]), r[2])
  {
    var s1 := Step(s, r[0]);
    var s2 := Step(s1, r[1]);
    assert r[2..][1..] == [] && Runs(Step(s2, r[2]), []);
    assert Runs(s2, r[2..]) && After(s2, r[2..]) == Step(s2, r[2]);
    assert r[1..][1..] == r[2..];
  }

  /** Two rows: one is delivered, its on-success step finds the other pending, and then the other dies. */
  lemma LastRowDies(s: State, a: int, b: int, e: int)
    requires FreshFor(s, e) && e in s.db.entries && a != b && RowsOf(s.db, e) == {a, b}
    ensures var run := DyingLast(a, b);
            Runs(s, run) && Settled(After(s, run).db, e) && Quiet(After(s, run), e) && e in After(s, run).db.entries
  {
    var run := DyingLast(a, b);
    assert a in RowsOf(s.db, e) && b in RowsOf(s.db, e);
    assert a !in s.waiting && b !in s.waiting;
    var s1 := Step(s, run[0]);
    StepKeepsWaiting(s, run[0]);
    SameRowsOf(s.db, s1.db, e);
    OnSuccessDeletes(s1, a);
    assert b in RowsOf(s1.db, e) && Unsettled(s1.db.logs[b]);
    var s2 := Step(s1, run[1]);
    assert s2.db.logs == s1.db.logs && e in s2.db.entries;
    var s3 := Step(s2, run[2]);
    SameRowsOf(s2.db, s3.db, e);
    assert RowsOf(s2.db, e) == RowsOf(s1.db, e);
    ThreeSteps(s, run);
    forall l | l in RowsOf(s3.db, e) ensures !Unsettled(s3.db.logs[l]) && l !in s3.waiting {
      assert l == a || l == b;
    }
    assert RowsOf(s3.db, e) * s3.waiting == {};
  }
}
