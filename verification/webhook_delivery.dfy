/**
  What a delivery does with the answer it gets: which status it writes, and
  that the written rows are those of WebhookRows; the grouping of claimed
  rows into digests; and the merge of on-success actions.
 */
module WebhookDelivery {
  import opened Prelude
  import opened Text
  import opened Catalog
  import opened WebhookRows

  /** Everything deliverWebhookLog can run into, up to the body of the answer. */
  datatype Answer =
    | ContextGone
    | LoadFailed
    | Disabled
    | Unbuildable
    | NoAnswer
    | Answered(code: int, accepted: bool)

  const DISABLED_PARK: int := 60

  /** webhookHTTPRetryable. */
  predicate Retryable(code: int) {
    code == 408 || code == 429 || code >= 500
  }

  /** What becomes of the row; `delay` is the backoff and `wait` what a 429 asked for. */
  function OutcomeOf(answer: Answer, now: int, delay: int, wait: int): Outcome {
    match answer
    case ContextGone => Refused
    case LoadFailed => Failing(now + delay)
    case Disabled => Parked(now + DISABLED_PARK)
    case Unbuildable => Refused
    case NoAnswer => Failing(now + delay)
    case Answered(code, accepted) =>
      if accepted then Accepted
      else if code == 429 then Parked(now + wait)
      else if Retryable(code) then Failing(now + delay)
      else Refused
  }

  /**
    The written row, answer by answer: `before` is the row's own count of
    attempts and `claimed` that of the row that was claimed.
   */
  predicate Answers(row: Log, before: nat, claimed: nat, answer: Answer, configured: int, now: int, delay: int, wait: int) {
    && (answer.Answered? && answer.accepted ==>
          row.status == Sent && row.attempt == before + 1 && row.nextRetryAt == None)
    && (answer.Answered? && !answer.accepted && answer.code == 429 ==>
          row.status == Failed && row.attempt == before && row.nextRetryAt == Some(now + wait))
    && (answer == Disabled ==>
          row.status == Failed && row.attempt == before && row.nextRetryAt == Some(now + 60))
    && (answer == LoadFailed || answer == NoAnswer || (answer.Answered? && !answer.accepted && (answer.code == 408 || answer.code >= 500)) ==>
          && row.attempt == before + 1
          && if claimed + 1 < (if configured <= 0 then 10 else configured) then row.status == Failed && row.nextRetryAt == Some(now + delay)
             else row.status == Dead && row.nextRetryAt == None)
    && (answer == ContextGone || answer == Unbuildable
        || (answer.Answered? && !answer.accepted && answer.code != 408 && answer.code != 429 && answer.code < 500) ==>
          row.status == Dead && row.attempt == before + 1 && row.nextRetryAt == None)
  }

  lemma RowAnswers(row: Log, d: Delivery, answer: Answer, configured: int, now: int, delay: int, wait: int)
    ensures var r := RowAfter(row, d, OutcomeOf(answer, now, delay, wait), MaxAttempts(configured));
            && r.webhook == row.webhook && r.entry == row.entry
            && Answers(r, if d.digest then row.attempt else d.attempt, d.attempt, answer, configured, now, delay, wait)
  {
  }

  lemma SingleRowAfter(rows: map<int, Log>, id: int, attempt: nat, outcome: Outcome, max: nat)
    ensures var d := Delivery([id], attempt, false);
            id in d.ids && RowsAfter(rows, d, outcome, max) == if id in rows then rows[id := RowAfter(rows[id], d, outcome, max)] else rows
  {
  }

  lemma RowsAnswer(rows: map<int, Log>, d: Delivery, answer: Answer, configured: int, now: int, delay: int, wait: int)
    ensures var after := RowsAfter(rows, d, OutcomeOf(answer, now, delay, wait), MaxAttempts(configured));
            && after.Keys == rows.Keys && (forall i :: i in rows && i !in d.ids ==> after[i] == rows[i])
            && forall i :: i in after && i in d.ids ==>
                 after[i].webhook == rows[i].webhook && after[i].entry == rows[i].entry
                 && Answers(after[i], if d.digest then rows[i].attempt else d.attempt, d.attempt, answer, configured, now, delay, wait)
  {
    forall i | i in rows
      ensures var r := RowAfter(rows[i], d, OutcomeOf(answer, now, delay, wait), MaxAttempts(configured));
              r.webhook == rows[i].webhook && r.entry == rows[i].entry
              && Answers(r, if d.digest then rows[i].attempt else d.attempt, d.attempt, answer, configured, now, delay, wait)
    {
      RowAnswers(rows[i], d, answer, configured, now, delay, wait);
    }
  }

  /** One UPDATE over all rows of a digest. */
  function DigestRows(rows: map<int, Log>, ids: seq<int>, status: LogStatus, bump: nat, next: Option<int>): map<int, Log> {
    map id | id in rows :: if id in ids then rows[id].(status := status, attempt := rows[id].attempt + bump, nextRetryAt := next) else rows[id]
  }

  class WebhookLogTable {
    var rows: map<int, Log>

    method MarkWebhookLogSent(id: int, attempt: nat, up: bool) returns (ok: bool)
      modifies this
      ensures ok == up
      ensures rows == if up && id in old(rows) then old(rows)[id := old(rows)[id].(status := Sent, attempt := attempt, nextRetryAt := None)] else old(rows)
    {
      if up && id in rows {
        rows := rows[id := rows[id].(status := Sent, attempt := attempt, nextRetryAt := None)];
      }
      ok := up;
    }

    method MarkWebhookLogFailed(id: int, attempt: nat, next: Option<int>, dead: bool, up: bool) returns (ok: bool)
      modifies this
      ensures ok == up
      ensures rows == if up && id in old(rows)
                      then old(rows)[id := old(rows)[id].(status := if dead then Dead else Failed, attempt := attempt, nextRetryAt := next)]
                      else old(rows)
    {
      if up && id in rows {
        rows := rows[id := rows[id].(status := if dead then Dead else Failed, attempt := attempt, nextRetryAt := next)];
      }
      ok := up;
    }

    /** recordWebhookFailure with webhookRetrySchedule. */
    method RecordWebhookFailure(id: int, attempt: nat, retryable: bool, configured: int, next: int, up: bool) returns (ok: bool)
      modifies this
      ensures ok == up
      ensures var dead := !retryable || attempt >= MaxAttempts(configured);
              rows == if up && id in old(rows)
                      then old(rows)[id := old(rows)[id].(status := if dead then Dead else Failed, attempt := attempt,
                                                          nextRetryAt := if dead then None else Some(next))]
                      else old(rows)
    {
      var retryAt, dead := None, true;
      if retryable {
        var maxAttempts := if configured <= 0 then 10 else configured;
        if attempt < maxAttempts {
          retryAt, dead := Some(next), false;
        }
      }
      ok := MarkWebhookLogFailed(id, attempt, retryAt, dead, up);
    }

    /** deliverWebhookLog with markedDelivery: `stored` says whether the status reached the table. */
    method DeliverWebhookLog(id: int, claimedAttempt: nat, answer: Answer, configured: int, now: int, delay: int, wait: int, up: bool)
      returns (stored: bool)
      modifies this
      ensures stored == up
      ensures rows.Keys == old(rows).Keys && forall i :: i in rows && !(up && i == id) ==> rows[i] == old(rows)[i]
      ensures up && id in rows ==>
                rows[id].webhook == old(rows)[id].webhook && rows[id].entry == old(rows)[id].entry
                && Answers(rows[id], claimedAttempt, claimedAttempt, answer, configured, now, delay, wait)
      ensures rows == if up then RowsAfter(old(rows), Delivery([id], claimedAttempt, false), OutcomeOf(answer, now, delay, wait), MaxAttempts(configured))
                      else old(rows)
    {
      RowsAnswer(rows, Delivery([id], claimedAttempt, false), answer, configured, now, delay, wait);
      SingleRowAfter(rows, id, claimedAttempt, OutcomeOf(answer, now, delay, wait), MaxAttempts(configured));
      var attempt := claimedAttempt + 1;
      if answer.ContextGone? {
        stored := MarkWebhookLogFailed(id, attempt, None, true, up);
      } else if answer.LoadFailed? {
        stored := RecordWebhookFailure(id, attempt, true, configured, now + delay, up);
      } else if answer.Disabled? {
        stored := MarkWebhookLogFailed(id, claimedAttempt, Some(now + DISABLED_PARK), false, up);
      } else if answer.Unbuildable? {
        stored := MarkWebhookLogFailed(id, attempt, None, true, up);
      } else if answer.NoAnswer? {
        stored := RecordWebhookFailure(id, attempt, true, configured, now + delay, up);
      } else if answer.accepted {
        stored := MarkWebhookLogSent(id, attempt, up);
      } else if answer.code == 429 {
        stored := MarkWebhookLogFailed(id, claimedAttempt, Some(now + wait), false, up);
      } else {
        var retryable := Retryable(answer.code);
        if 200 <= answer.code <= 299 {
          retryable := false;
        }
        stored := RecordWebhookFailure(id, attempt, retryable, configured, now + delay, up);
      }
    }

    method MarkWebhookLogsSent(ids: seq<int>, up: bool) returns (ok: bool)
      modifies this
      ensures ok == up
      ensures rows == if up then DigestRows(old(rows), ids, Sent, 1, None) else old(rows)
    {
      if up {
        rows := DigestRows(rows, ids, Sent, 1, None);
      }
      ok := up;
    }

    method MarkWebhookLogsFailed(ids: seq<int>, next: Option<int>, dead: bool, countAttempt: bool, up: bool) returns (ok: bool)
      modifies this
      ensures ok == up
      ensures rows == if up then DigestRows(old(rows), ids, if dead then Dead else Failed, if countAttempt then 1 else 0, next) else old(rows)
    {
      if up {
        rows := DigestRows(rows, ids, if dead then Dead else Failed, if countAttempt then 1 else 0, next);
      }
      ok := up;
    }

    /** digestFailure: the retry schedule looks at the claimed row's attempt only. */
    method DigestFailure(ids: seq<int>, attempt: nat, retryable: bool, configured: int, next: int, up: bool) returns (ok: bool)
      modifies this
      ensures ok == up
      ensures var dead := !retryable || attempt >= MaxAttempts(configured);
              rows == if up then DigestRows(old(rows), ids, if dead then Dead else Failed, 1, if dead then None else Some(next)) else old(rows)
    {
      var retryAt, dead := None, true;
      if retryable {
        var maxAttempts := if configured <= 0 then 10 else configured;
        if attempt < maxAttempts {
          retryAt, dead := Some(next), false;
        }
      }
      ok := MarkWebhookLogsFailed(ids, retryAt, dead, true, up);
    }

    /** deliverWebhookDigest: ContextGone stands for no entry being left. */
    method DeliverWebhookDigest(ids: seq<int>, claimedAttempt: nat, answer: Answer, configured: int, now: int, delay: int, wait: int, up: bool)
      returns (stored: bool)
      modifies this
      ensures stored == up
      ensures rows.Keys == old(rows).Keys && forall i :: i in rows && !(up && i in ids) ==> rows[i] == old(rows)[i]
      ensures up ==> forall i :: i in rows && i in ids ==>
                rows[i].webhook == old(rows)[i].webhook && rows[i].entry == old(rows)[i].entry
                && Answers(rows[i], old(rows)[i].attempt, claimedAttempt, answer, configured, now, delay, wait)
      ensures rows == if up then RowsAfter(old(rows), Delivery(ids, claimedAttempt, true), OutcomeOf(answer, now, delay, wait), MaxAttempts(configured))
                      else old(rows)
    {
      RowsAnswer(rows, Delivery(ids, claimedAttempt, true), answer, configured, now, delay, wait);
      var attempt := claimedAttempt + 1;
      if answer.LoadFailed? || answer.NoAnswer? {
        stored := DigestFailure(ids, attempt, true, configured, now + delay, up);
      } else if answer.Disabled? {
        stored := MarkWebhookLogsFailed(ids, Some(now + DISABLED_PARK), false, false, up);
      } else if answer.ContextGone? || answer.Unbuildable? {
        stored := MarkWebhookLogsFailed(ids, None, true, true, up);
      } else if answer.accepted {
        stored := MarkWebhookLogsSent(ids, up);
      } else if answer.code == 429 {
        stored := MarkWebhookLogsFailed(ids, Some(now + wait), false, false, up);
      } else {
        var retryable := Retryable(answer.code) && (answer.code < 200 || answer.code > 299);
        stored := DigestFailure(ids, attempt, retryable, configured, now + delay, up);
      }
      if up {
        ghost var want := RowsAfter(old(rows), Delivery(ids, claimedAttempt, true), OutcomeOf(answer, now, delay, wait), MaxAttempts(configured));
        assert rows.Keys == want.Keys;
        assert forall id :: id in rows ==> rows[id] == want[id];
      }
    }

    /** RetryWebhookLogNow: false is ErrNotFound. */
    method RetryWebhookLogNow(id: int, now: int) returns (ok: bool)
      modifies this
      ensures ok <==> id in old(rows) && !old(rows)[id].status.Sent?
      ensures rows == if ok then old(rows)[id := old(rows)[id].(status := Pending, nextRetryAt := Some(now))] else old(rows)
    {
      ok := id in rows && !rows[id].status.Sent?;
      if ok {
        rows := rows[id := rows[id].(status := Pending, nextRetryAt := Some(now))];
      }
    }
  }

  // --------------------------------------------------------------- grouping

  datatype Claimed = Claimed(id: int, webhook: int, digest: bool)

  datatype Outgoing = Outgoing(row: Claimed, peers: seq<int>)

  /** The rows of a digest webhook in a claimed batch, in order. */
  function IdsOf(logs: seq<Claimed>, webhook: int): seq<int> {
    if logs == [] then []
    else
      var l := logs[|logs| - 1];
      IdsOf(logs[..|logs| - 1], webhook) + (if l.digest && l.webhook == webhook then [l.id] else [])
  }

  /** The rows that go out one by one, in order. */
  function Singles(logs: seq<Claimed>): seq<Claimed> {
    if logs == [] then []
    else
      var l := logs[|logs| - 1];
      Singles(logs[..|logs| - 1]) + (if l.digest then [] else [l])
  }

  function Rows(out: seq<Outgoing>): (r: seq<Claimed>)
    ensures |r| == |out| && forall i :: 0 <= i < |r| ==> r[i] == out[i].row
  {
    seq(|out|, i requires 0 <= i < |out| => out[i].row)
  }

  lemma SinglesNext(logs: seq<Claimed>, l: Claimed)
    ensures Singles(logs + [l]) == Singles(logs) + (if l.digest then [] else [l])
  {
  }

  /** `carriers` finds the one carrier of each digest webhook, and that has all rows of the webhook. */
  ghost predicate CarriersHold(out: seq<Outgoing>, carriers: map<int, nat>, ids: int -> seq<int>) {
    && (forall w :: w in carriers ==> carriers[w] < |out| && out[carriers[w]].row.digest && out[carriers[w]].row.webhook == w)
    && (forall i :: 0 <= i < |out| && out[i].row.digest ==> out[i].row.webhook in carriers && carriers[out[i].row.webhook] == i)
    && (forall w :: w in carriers ==> out[carriers[w]].peers == ids(w) && ids(w) != [])
    && (forall w :: w !in carriers ==> ids(w) == [])
  }

  /** Rows without a digest pass through in order; each digest webhook has one message with all its rows in order. */
  ghost predicate Grouped(out: seq<Outgoing>, logs: seq<Claimed>) {
    && Singles(Rows(out)) == Singles(logs)
    && (forall i :: 0 <= i < |out| && out[i].row.digest ==> out[i].peers == IdsOf(logs, out[i].row.webhook) != [])
    && (forall i, j :: 0 <= i < j < |out| && out[i].row.digest && out[j].row.digest ==> out[i].row.webhook != out[j].row.webhook)
    && (forall w :: IdsOf(logs, w) != [] ==> exists i :: 0 <= i < |out| && out[i].row.digest && out[i].row.webhook == w)
  }

  /** `more` is `ids` with one more row of the webhook. */
  ghost predicate Grows(ids: int -> seq<int>, more: int -> seq<int>, l: Claimed) {
    forall w :: more(w) == if l.digest && w == l.webhook then ids(w) + [l.id] else ids(w)
  }

  lemma SingleAdded(out: seq<Outgoing>, carriers: map<int, nat>, ids: int -> seq<int>, more: int -> seq<int>, l: Claimed)
    requires CarriersHold(out, carriers, ids) && !l.digest && Grows(ids, more, l)
    ensures CarriersHold(out + [Outgoing(l, [])], carriers, more)
  {
  }

  lemma PeerAdded(out: seq<Outgoing>, carriers: map<int, nat>, ids: int -> seq<int>, more: int -> seq<int>, l: Claimed)
    requires CarriersHold(out, carriers, ids) && l.digest && l.webhook in carriers && Grows(ids, more, l)
    ensures var i := carriers[l.webhook]; CarriersHold(out[i := out[i].(peers := out[i].peers + [l.id])], carriers, more)
  {
  }

  lemma CarrierAdded(out: seq<Outgoing>, carriers: map<int, nat>, ids: int -> seq<int>, more: int -> seq<int>, l: Claimed)
    requires CarriersHold(out, carriers, ids) && l.digest && l.webhook !in carriers && Grows(ids, more, l)
    ensures CarriersHold(out + [Outgoing(l, [l.id])], carriers[l.webhook := |out|], more)
  {
  }

  /** The rows of every digest webhook. */
  function Ids(logs: seq<Claimed>): int -> seq<int> {
    w => IdsOf(logs, w)
  }

  lemma IdsGrow(logs: seq<Claimed>, l: Claimed)
    ensures Grows(Ids(logs), Ids(logs + [l]), l)
  {
  }

  lemma GroupedAtEnd(out: seq<Outgoing>, carriers: map<int, nat>, logs: seq<Claimed>)
    requires CarriersHold(out, carriers, Ids(logs)) && Singles(Rows(out)) == Singles(logs)
    ensures Grouped(out, logs)
  {
    forall w | IdsOf(logs, w) != [] ensures exists i :: 0 <= i < |out| && out[i].row.digest && out[i].row.webhook == w {
      assert Ids(logs)(w) != [];
      assert out[carriers[w]].row.webhook == w;
    }
    forall i | 0 <= i < |out| && out[i].row.digest ensures out[i].peers == IdsOf(logs, out[i].row.webhook) != [] {
      assert Ids(logs)(out[i].row.webhook) == IdsOf(logs, out[i].row.webhook);
    }
  }

  lemma SinglesAppended(out: seq<Outgoing>, o: Outgoing, logs: seq<Claimed>)
    requires Singles(Rows(out)) == Singles(logs)
    ensures Singles(Rows(out + [o])) == Singles(logs + [o.row])
  {
    assert Rows(out + [o]) == Rows(out) + [o.row];
    SinglesNext(Rows(out), o.row);
    SinglesNext(logs, o.row);
  }

  lemma SinglesUntouched(out: seq<Outgoing>, i: nat, peers: seq<int>, logs: seq<Claimed>, l: Claimed)
    requires Singles(Rows(out)) == Singles(logs) && i < |out| && l.digest
    ensures Singles(Rows(out[i := out[i].(peers := peers)])) == Singles(logs + [l])
  {
    assert Rows(out[i := out[i].(peers := peers)]) == Rows(out);
    SinglesNext(logs, l);
  }

  /** The grouping of the rows up to here. */
  ghost predicate SoFar(out: seq<Outgoing>, carriers: map<int, nat>, logs: seq<Claimed>) {
    CarriersHold(out, carriers, Ids(logs)) && Singles(Rows(out)) == Singles(logs)
  }

  lemma NothingYet()
    ensures SoFar([], map[], [])
  {
  }

  /** One more claimed row. */
  method AddRow(out0: seq<Outgoing>, carriers0: map<int, nat>, ghost logs: seq<Claimed>, l: Claimed)
    returns (out: seq<Outgoing>, carriers: map<int, nat>)
    requires SoFar(out0, carriers0, logs)
    ensures SoFar(out, carriers, logs + [l])
  {
    carriers := carriers0;
    IdsGrow(logs, l);
    if !l.digest {
      SingleAdded(out0, carriers0, Ids(logs), Ids(logs + [l]), l);
      SinglesAppended(out0, Outgoing(l, []), logs);
      out := out0 + [Outgoing(l, [])];
    } else if l.webhook in carriers {
      var i := carriers[l.webhook];
      PeerAdded(out0, carriers0, Ids(logs), Ids(logs + [l]), l);
      SinglesUntouched(out0, i, out0[i].peers + [l.id], logs, l);
      out := out0[i := out0[i].(peers := out0[i].peers + [l.id])];
    } else {
      CarrierAdded(out0, carriers0, Ids(logs), Ids(logs + [l]), l);
      SinglesAppended(out0, Outgoing(l, [l.id]), logs);
      carriers := carriers[l.webhook := |out0|];
      out := out0 + [Outgoing(l, [l.id])];
    }
  }

  /** The first pass of groupDigestLogs, over the claimed rows. */
  method GroupClaimed(logs: seq<Claimed>) returns (out: seq<Outgoing>, carriers: map<int, nat>)
    ensures Grouped(out, logs) && CarriersHold(out, carriers, Ids(logs))
  {
    out, carriers := [], map[];
    var k := 0;
    NothingYet();
    assert logs[..0] == [];
    while k < |logs|
      invariant k <= |logs| && SoFar(out, carriers, logs[..k])
    {
      assert logs[..k + 1] == logs[..k] + [logs[k]];
      out, carriers := AddRow(out, carriers, logs[..k], logs[k]);
      k := k + 1;
    }
    assert logs[..k] == logs;
    GroupedAtEnd(out, carriers, logs);
  }

  /** ClaimWebhookDigestPeers: the due rows of the webhook that are not excluded, up to the limit; none when the query fails. */
  function MorePeers(due: seq<int>, up: bool, exclude: seq<int>): seq<int> {
    if !up || |exclude| >= DIGEST_MAX_ITEMS then [] else Others(due, exclude, DIGEST_MAX_ITEMS - |exclude|)
  }

  function Others(due: seq<int>, exclude: seq<int>, limit: nat): seq<int> {
    if due == [] || limit == 0 then []
    else if due[0] in exclude then Others(due[1..], exclude, limit)
    else [due[0]] + Others(due[1..], exclude, limit - 1)
  }

  lemma {:induction false} OthersSound(due: seq<int>, exclude: seq<int>, limit: nat)
    requires Distinct(due)
    ensures var r := Others(due, exclude, limit);
            && |r| <= limit && Distinct(r) && (forall x :: x in r ==> x in due && x !in exclude)
            && (|r| < limit ==> forall x :: x in due && x !in exclude ==> x in r)
  {
    if due != [] && limit > 0 {
      var tail := due[1..];
      assert forall i, j :: 0 <= i < j < |tail| ==> tail[i] == due[i + 1] && tail[j] == due[j + 1];
      if due[0] in exclude {
        OthersSound(tail, exclude, limit);
      } else {
        OthersSound(tail, exclude, limit - 1);
        assert due[0] !in tail;
      }
    }
  }

  /** What a carrier takes along: its claimed rows, then what the store still has due for the webhook. */
  function FullPeers(own: seq<int>, due: seq<int>, up: bool): seq<int> {
    own + MorePeers(due, up, own)
  }

  /**
    A digest never exceeds its limit by what it adds, carries no row twice,
    and leaves a due row behind only when it is full or the query failed.
   */
  lemma FullPeersExact(own: seq<int>, due: seq<int>, up: bool)
    requires Distinct(own) && Distinct(due)
    ensures var r := FullPeers(own, due, up);
            && Distinct(r) && (|own| <= DIGEST_MAX_ITEMS ==> |r| <= DIGEST_MAX_ITEMS)
            && (forall x :: x in r ==> x in own || x in due)
            && (up && |r| < DIGEST_MAX_ITEMS ==> forall x :: x in due ==> x in r)
  {
    var more := MorePeers(due, up, own);
    if up && |own| < DIGEST_MAX_ITEMS {
      OthersSound(due, own, DIGEST_MAX_ITEMS - |own|);
    }
    forall i, j | 0 <= i < |own| && 0 <= j < |more| ensures own[i] != more[j] {
      assert more[j] in more;
    }
  }

  /** The message as it leaves: `due` and `up` are the store's answers by webhook. */
  ghost function Completed(o: Outgoing, due: int -> seq<int>, up: int -> bool): Outgoing {
    if o.row.digest then o.(peers := FullPeers(o.peers, due(o.row.webhook), up(o.row.webhook))) else o
  }

  /** The messages of the webhooks outside `rest` are complete. */
  ghost predicate CompleteBut(out: seq<Outgoing>, grouped: seq<Outgoing>, rest: set<int>, due: int -> seq<int>, up: int -> bool) {
    |out| == |grouped| && forall i :: 0 <= i < |out| ==>
      out[i] == if grouped[i].row.digest && grouped[i].row.webhook in rest then grouped[i] else Completed(grouped[i], due, up)
  }

  lemma CompleteNext(out: seq<Outgoing>, grouped: seq<Outgoing>, rest: set<int>, due: int -> seq<int>, up: int -> bool, i: nat, w: int)
    requires CompleteBut(out, grouped, rest, due, up) && i < |out| && w in rest && grouped[i].row.digest && grouped[i].row.webhook == w
    requires forall j :: 0 <= j < |grouped| && grouped[j].row.digest && grouped[j].row.webhook == w ==> j == i
    ensures CompleteBut(out[i := out[i].(peers := out[i].peers + MorePeers(due(w), up(w), out[i].peers))], grouped, rest - {w}, due, up)
  {
  }

  /** groupDigestLogs: grouping, then one query for each carrier, in whatever order the map gives them. */
  method GroupDigestLogs(logs: seq<Claimed>, due: int -> seq<int>, up: int -> bool) returns (out: seq<Outgoing>)
    ensures exists grouped :: Grouped(grouped, logs) && CompleteBut(out, grouped, {}, due, up)
  {
    var grouped, carriers := GroupClaimed(logs);
    out := grouped;
    var rest := carriers.Keys;
    while rest != {}
      invariant rest <= carriers.Keys && CompleteBut(out, grouped, rest, due, up)
      decreases |rest|
    {
      ghost var some := Pick(rest);
      var w :| w in rest;
      var i := carriers[w];
      CompleteNext(out, grouped, rest, due, up, i, w);
      out := out[i := out[i].(peers := out[i].peers + MorePeers(due(w), up(w), out[i].peers))];
      rest := rest - {w};
    }
  }

  // ------------------------------------------------------------- on success

  datatype OnSuccess = Nothing | MarkRead | Hash | Delete

  /** NormalizeWebhookOnSuccess; the actions stand for their names. */
  function NormalizeOnSuccess(s: string): Option<OnSuccess> {
    var a := ToLower(Trim(s));
    if a == "" || a == "none" then Some(Nothing)
    else if a == "mark_read" then Some(MarkRead)
    else if a == "hash" then Some(Hash)
    else if a == "delete" then Some(Delete)
    else None
  }

  /** delete > hash > mark_read > none. */
  function Strength(a: OnSuccess): nat {
    match a
    case Nothing => 0
    case MarkRead => 1
    case Hash => 2
    case Delete => 3
  }

  predicate Asks(actions: seq<Option<OnSuccess>>, a: OnSuccess) {
    Some(a) in actions
  }

  /** The strongest action anybody asked for. */
  ghost predicate Strongest(actions: seq<Option<OnSuccess>>, merged: OnSuccess) {
    && (forall a :: Asks(actions, a) ==> Strength(a) <= Strength(merged))
    && (merged != Nothing ==> Asks(actions, merged))
  }

  function Normalized(actions: seq<string>): (r: seq<Option<OnSuccess>>)
    ensures |r| == |actions| && forall i :: 0 <= i < |r| ==> r[i] == NormalizeOnSuccess(actions[i])
  {
    seq(|actions|, i requires 0 <= i < |actions| => NormalizeOnSuccess(actions[i]))
  }

  /** One of the texts is this name, in any case and with spaces around it. */
  ghost predicate Named(actions: seq<string>, name: string) {
    exists i :: 0 <= i < |actions| && ToLower(Trim(actions[i])) == name
  }

  lemma NamedIsAsked(actions: seq<string>)
    ensures Named(actions, "delete") <==> Asks(Normalized(actions), Delete)
    ensures Named(actions, "hash") <==> Asks(Normalized(actions), Hash)
    ensures Named(actions, "mark_read") <==> Asks(Normalized(actions), MarkRead)
  {
    forall i | 0 <= i < |actions|
      ensures ToLower(Trim(actions[i])) == "delete" <==> Normalized(actions)[i] == Some(Delete)
      ensures ToLower(Trim(actions[i])) == "hash" <==> Normalized(actions)[i] == Some(Hash)
      ensures ToLower(Trim(actions[i])) == "mark_read" <==> Normalized(actions)[i] == Some(MarkRead)
    {
      NormalizedIs(actions[i]);
    }
  }

  lemma NormalizedIs(s: string)
    ensures ToLower(Trim(s)) == "delete" <==> NormalizeOnSuccess(s) == Some(Delete)
    ensures ToLower(Trim(s)) == "hash" <==> NormalizeOnSuccess(s) == Some(Hash)
    ensures ToLower(Trim(s)) == "mark_read" <==> NormalizeOnSuccess(s) == Some(MarkRead)
  {
  }

  /** MergeOnSuccessActions; what does not parse is skipped. */
  method MergeOnSuccessActions(actions: seq<string>) returns (merged: OnSuccess)
    ensures Strongest(Normalized(actions), merged)
    ensures merged == Delete <==> Named(actions, "delete")
    ensures merged == Hash <==> Named(actions, "hash") && !Named(actions, "delete")
    ensures merged == MarkRead <==> Named(actions, "mark_read") && !Named(actions, "hash") && !Named(actions, "delete")
  {
    NamedIsAsked(actions);
    merged := Merge(Normalized(actions));
  }

  method Merge(parsed: seq<Option<OnSuccess>>) returns (merged: OnSuccess)
    ensures Strongest(parsed, merged)
  {
    var hasDelete, hasHash, hasRead := false, false, false;
    var i := 0;
    while i < |parsed|
      invariant i <= |parsed|
      invariant hasDelete <==> Asks(parsed[..i], Delete)
      invariant hasHash <==> Asks(parsed[..i], Hash)
      invariant hasRead <==> Asks(parsed[..i], MarkRead)
    {
      AsksNext(parsed[..i], parsed[i]);
      assert parsed[..i + 1] == parsed[..i] + [parsed[i]];
      match parsed[i] {
        case Some(Delete) => hasDelete := true;
        case Some(Hash) => hasHash := true;
        case Some(MarkRead) => hasRead := true;
        case _ =>
      }
      i := i + 1;
    }
    assert parsed[..i] == parsed;
    merged := if hasDelete then Delete else if hasHash then Hash else if hasRead then MarkRead else Nothing;
  }

  lemma AsksNext(actions: seq<Option<OnSuccess>>, x: Option<OnSuccess>)
    ensures forall a :: Asks(actions + [x], a) <==> Asks(actions, a) || x == Some(a)
  {
  }

  /** Merging this delivery's action with the merged action of all deliveries of the entry changes nothing. */
  lemma MergeAgain(all: seq<Option<OnSuccess>>, own: Option<OnSuccess>, merged: OnSuccess, again: OnSuccess)
    requires Strongest(all, merged) && (own.Some? ==> Asks(all, own.value)) && Strongest([own, Some(merged)], again)
    ensures again == merged
  {
    var pair := [own, Some(merged)];
    assert pair[0] == own && pair[1] == Some(merged);
    assert Asks(pair, merged);
    assert forall a :: Asks(pair, a) ==> Some(a) == own || a == merged;
  }
}
