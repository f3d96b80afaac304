/**
  The life of webhook_logs rows: enqueue, claim, every outcome of a single
  or a digest delivery, manual retry and retention, in any order. At most one
  delivery per webhook is under way (WebhookDispatch).
 */
module WebhookRows {
  import opened Prelude
  import opened Catalog

  /** How a delivery ends, with the retry or resume time it computed. */
  datatype Outcome =
    | Accepted
    | Failing(next: int)
    | Refused
    | Parked(next: int)

  /** ids[0] is the row that was claimed; the other rows of a digest travel with it. */
  datatype Delivery = Delivery(ids: seq<int>, attempt: nat, digest: bool)

  /**
    hand: the deliveries under way, by webhook. History: counted sends and
    manual retries of each row, and the rows that ever travelled in a digest that
    another row was claimed for.
   */
  datatype State = State(rows: map<int, Log>, hand: map<int, Delivery>, counted: map<int, nat>, retried: map<int, nat>, peers: set<int>)

  datatype Event =
    | Enqueue(id: int, webhook: int, entry: int, due: int)
    | Claim(webhook: int, ids: seq<int>, digest: bool, now: int)
    | Finish(webhook: int, outcome: Outcome, stored: bool)
    | Retry(id: int, now: int)
    | Purge(gone: set<int>)

  /** WebhookMaxAttempts with its default. */
  function MaxAttempts(configured: int): nat {
    if configured <= 0 then 10 else configured
  }

  predicate Due(s: State, id: int, webhook: int, now: int) {
    && id in s.rows && s.rows[id].webhook == webhook && Unsettled(s.rows[id])
    && s.rows[id].nextRetryAt.Some? && s.rows[id].nextRetryAt.value <= now
  }

  /** DISTINCT ON (webhook_id) … ORDER BY next_retry_at, id. */
  ghost predicate FirstDue(s: State, id: int, webhook: int, now: int) {
    Due(s, id, webhook, now) &&
    forall x :: Due(s, x, webhook, now) && x != id ==>
      s.rows[id].nextRetryAt.value < s.rows[x].nextRetryAt.value
      || (s.rows[id].nextRetryAt.value == s.rows[x].nextRetryAt.value && id < x)
  }

  const DIGEST_MAX_ITEMS: nat := 200

  ghost predicate Enabled(s: State, e: Event) {
    match e
    case Enqueue(id, webhook, entry, due) => id !in s.rows && id !in s.counted
    case Claim(webhook, ids, digest, now) =>
      && webhook !in s.hand && ids != [] && Distinct(ids) && FirstDue(s, ids[0], webhook, now)
      && (if digest then |ids| <= DIGEST_MAX_ITEMS && (|ids| < DIGEST_MAX_ITEMS ==> forall x :: Due(s, x, webhook, now) ==> x in ids)
          else |ids| == 1)
      && forall i :: 0 <= i < |ids| ==> Due(s, ids[i], webhook, now)
    case Finish(webhook, outcome, stored) => webhook in s.hand
    case Retry(id, now) => true
    case Purge(gone) => true
  }

  /** The columns a status write sets; `attempt` is the counted attempt, `schedule` the one the retry budget looks at. */
  function Written(row: Log, attempt: nat, schedule: nat, outcome: Outcome, max: nat): Log {
    match outcome
    case Accepted => row.(status := Sent, attempt := attempt, nextRetryAt := None)
    case Refused => row.(status := Dead, attempt := attempt, nextRetryAt := None)
    case Failing(next) =>
      if schedule >= max then row.(status := Dead, attempt := attempt, nextRetryAt := None)
      else row.(status := Failed, attempt := attempt, nextRetryAt := Some(next))
    case Parked(next) => row.(status := Failed, nextRetryAt := Some(next))
  }

  /**
    A single delivery writes the attempt it claimed, plus one; a digest adds
    one to each row. A park writes back the attempt. Both schedule by the
    attempt of the claimed row.
   */
  function RowAfter(row: Log, d: Delivery, outcome: Outcome, max: nat): Log {
    if d.digest then Written(row, row.attempt + 1, d.attempt + 1, outcome, max)
    else if outcome.Parked? then Written(row, 0, d.attempt + 1, outcome, max).(attempt := d.attempt)
    else Written(row, d.attempt + 1, d.attempt + 1, outcome, max)
  }

  function RowsAfter(rows: map<int, Log>, d: Delivery, outcome: Outcome, max: nat): map<int, Log> {
    map id | id in rows :: if id in d.ids then RowAfter(rows[id], d, outcome, max) else rows[id]
  }

  function Bumped(m: map<int, nat>, ids: seq<int>): map<int, nat> {
    map id | id in m :: if id in ids then m[id] + 1 else m[id]
  }

  ghost function Step(s: State, e: Event, max: nat): State
    requires Enabled(s, e)
  {
    match e
    case Enqueue(id, webhook, entry, due) =>
      s.(rows := s.rows[id := Log(webhook, entry, Pending, 0, Some(due))], counted := s.counted[id := 0], retried := s.retried[id := 0])
    case Claim(webhook, ids, digest, now) =>
      s.(hand := s.hand[webhook := Delivery(ids, s.rows[ids[0]].attempt, digest)],
         peers := if digest then s.peers + Elements(ids[1..]) else s.peers)
    case Finish(webhook, outcome, stored) =>
      var d := s.hand[webhook];
      var t := s.(hand := s.hand - {webhook});
      if !stored then t
      else t.(rows := RowsAfter(s.rows, d, outcome, max), counted := if outcome.Parked? then s.counted else Bumped(s.counted, d.ids))
    case Retry(id, now) =>
      if id in s.rows && !s.rows[id].status.Sent? then
        s.(rows := s.rows[id := s.rows[id].(status := Pending, nextRetryAt := Some(now))],
           retried := Bumped(s.retried, [id]))
      else s
    case Purge(gone) => s.(rows := s.rows - gone)
  }

  ghost predicate Runs(s: State, run: seq<Event>, max: nat)
    decreases |run|
  {
    run == [] || (Enabled(s, run[0]) && Runs(Step(s, run[0], max), run[1..], max))
  }

  ghost function After(s: State, run: seq<Event>, max: nat): State
    requires Runs(s, run, max)
    decreases |run|
  {
    if run == [] then s else After(Step(s, run[0], max), run[1..], max)
  }

  const EMPTY: State := State(map[], map[], map[], map[], {})

  // -------------------------------------------------------------- the invariant

  /** A row is claimable again exactly when it says when. */
  predicate Scheduled(row: Log) {
    Unsettled(row) <==> row.nextRetryAt.Some?
  }

  /** The attempt column counts exactly the sends that count. */
  predicate Counted(s: State, id: int) {
    id in s.rows ==> id in s.counted && id in s.retried && s.rows[id].attempt == s.counted[id]
  }

  /** The row has sends left for as long as it is alive. */
  predicate Affordable(s: State, id: int, max: nat) {
    id in s.rows && id in s.retried ==>
      && s.rows[id].attempt <= max + s.retried[id]
      && (Unsettled(s.rows[id]) ==> s.rows[id].attempt < max + s.retried[id])
  }

  /** A row that never travelled as a peer stays in its budget. */
  predicate InBudget(s: State, id: int, max: nat) {
    id !in s.peers ==> Affordable(s, id, max)
  }

  ghost predicate HandSound(s: State, webhook: int)
    requires webhook in s.hand
  {
    var d := s.hand[webhook];
    && d.ids != [] && (!d.digest ==> |d.ids| == 1) && (forall i :: 1 <= i < |d.ids| ==> d.ids[i] in s.peers)
    && (forall i :: 0 <= i < |d.ids| ==>
          d.ids[i] in s.counted && (d.ids[i] in s.rows ==> s.rows[d.ids[i]].webhook == webhook && Unsettled(s.rows[d.ids[i]])))
    && (d.ids[0] in s.rows ==> s.rows[d.ids[0]].attempt == d.attempt)
  }

  ghost predicate RowsHold(s: State, max: nat) {
    forall id :: id in s.rows ==> Scheduled(s.rows[id]) && Counted(s, id) && InBudget(s, id, max)
  }

  ghost predicate HandsHold(s: State) {
    forall w :: w in s.hand ==> HandSound(s, w)
  }

  ghost predicate Inv(s: State, max: nat) {
    RowsHold(s, max) && HandsHold(s)
  }

  /** A failure with sends left, or a park, makes the row due again from its time on; anything else never by itself. */
  lemma ComesBack(s: State, webhook: int, outcome: Outcome, max: nat, id: int, t: int)
    requires webhook in s.hand && id in s.hand[webhook].ids && id in s.rows && s.rows[id].webhook == webhook
    ensures var again := Step(s, Finish(webhook, outcome, true), max);
            Due(again, id, webhook, t) <==>
              match outcome
              case Failing(next) => s.hand[webhook].attempt + 1 < max && next <= t
              case Parked(next) => next <= t
              case _ => false
  {
  }

  lemma EnqueueKeeps(s: State, e: Event, max: nat)
    requires Inv(s, max) && max > 0 && e.Enqueue? && Enabled(s, e)
    ensures Inv(Step(s, e, max), max)
  {
  }

  lemma ClaimKeeps(s: State, e: Event, max: nat)
    requires Inv(s, max) && e.Claim? && Enabled(s, e)
    ensures Inv(Step(s, e, max), max)
  {
  }

  lemma RetryKeeps(s: State, e: Event, max: nat)
    requires Inv(s, max) && e.Retry?
    ensures Inv(Step(s, e, max), max)
  {
  }

  lemma PurgeKeeps(s: State, e: Event, max: nat)
    requires Inv(s, max) && e.Purge?
    ensures Inv(Step(s, e, max), max)
  {
  }

  /** Deliveries of different webhooks carry different rows. */
  lemma HandsDisjoint(s: State, v: int, w: int, id: int)
    requires HandsHold(s) && v in s.hand && w in s.hand && v != w && id in s.rows && id in s.hand[v].ids
    ensures id !in s.hand[w].ids
  {
  }

  lemma FinishKeepsRow(s: State, e: Event, max: nat, id: int)
    requires Inv(s, max) && e.Finish? && Enabled(s, e) && id in s.rows
    ensures var t := Step(s, e, max); id in t.rows && Scheduled(t.rows[id]) && Counted(t, id) && InBudget(t, id, max)
  {
  }

  lemma FinishKeeps(s: State, e: Event, max: nat)
    requires Inv(s, max) && e.Finish? && Enabled(s, e)
    ensures Inv(Step(s, e, max), max)
  {
    var t := Step(s, e, max);
    forall w | w in t.hand ensures HandSound(t, w) {
      assert HandSound(s, w);
      forall id | id in s.rows && id in s.hand[w].ids ensures t.rows[id] == s.rows[id] {
        HandsDisjoint(s, w, e.webhook, id);
      }
      assert forall i :: 0 <= i < |s.hand[w].ids| ==> s.hand[w].ids[i] in t.counted;
    }
    forall id | id in t.rows ensures Scheduled(t.rows[id]) && Counted(t, id) && InBudget(t, id, max) {
      FinishKeepsRow(s, e, max, id);
    }
  }

  lemma StepKeeps(s: State, e: Event, max: nat)
    requires Inv(s, max) && max > 0 && Enabled(s, e)
    ensures Inv(Step(s, e, max), max)
  {
    match e
    case Enqueue(_, _, _, _) => EnqueueKeeps(s, e, max);
    case Claim(_, _, _, _) => ClaimKeeps(s, e, max);
    case Finish(_, _, _) => FinishKeeps(s, e, max);
    case Retry(_, _) => RetryKeeps(s, e, max);
    case Purge(_) => PurgeKeeps(s, e, max);
  }

  lemma {:induction false} RunKeeps(s: State, run: seq<Event>, max: nat)
    requires Inv(s, max) && max > 0 && Runs(s, run, max)
    ensures Inv(After(s, run, max), max)
    decreases |run|
  {
    if run != [] {
      StepKeeps(s, run[0], max);
      RunKeeps(Step(s, run[0], max), run[1..], max);
    }
  }

  /**
    In every run: a row is pending or failed exactly when next_retry_at is
    set; attempt counts its counted sends; and a row that never travelled as
    the peer of another is sent or dead after at most the configured maximum of
    them, one more for each manual retry.
   */
  lemma RowLaws(run: seq<Event>, configured: int, id: int)
    requires Runs(EMPTY, run, MaxAttempts(configured))
    ensures var s := After(EMPTY, run, MaxAttempts(configured));
            id in s.rows ==>
              && (Unsettled(s.rows[id]) <==> s.rows[id].nextRetryAt.Some?)
              && id in s.counted && id in s.retried && s.rows[id].attempt == s.counted[id]
              && (id !in s.peers ==>
                    && s.counted[id] <= MaxAttempts(configured) + s.retried[id]
                    && (s.counted[id] == MaxAttempts(configured) + s.retried[id] ==> s.rows[id].status.Sent? || s.rows[id].status.Dead?))
  {
    RunKeeps(EMPTY, run, MaxAttempts(configured));
    var s := After(EMPTY, run, MaxAttempts(configured));
    assert id in s.rows ==> Scheduled(s.rows[id]) && Counted(s, id) && InBudget(s, id, MaxAttempts(configured));
  }

  /** Each counted failure of a single delivery uses up exactly one send; parks use none. */
  lemma FailureUsesBudget(s: State, webhook: int, outcome: Outcome, max: nat)
    requires Inv(s, max) && webhook in s.hand && !s.hand[webhook].digest && s.hand[webhook].ids[0] in s.rows
    ensures var id := s.hand[webhook].ids[0];
            var t := Step(s, Finish(webhook, outcome, true), max);
            && id in t.rows && t.rows[id].attempt == s.rows[id].attempt + (if outcome.Parked? then 0 else 1)
            && (outcome.Parked? ==> t.rows[id].status.Failed?)
            && (outcome.Failing? ==> (t.rows[id].status.Failed? <==> t.rows[id].attempt < max) && (t.rows[id].status.Dead? <==> t.rows[id].attempt >= max))
  {
  }

  // ------------------------------------------------------------------- digests

  /** In a digest the claimed row decides for all: whatever its own count, a peer lives or dies with it. */
  lemma PeersShareTheVerdict(s: State, webhook: int, next: int, max: nat, id: int)
    requires Inv(s, max) && webhook in s.hand && s.hand[webhook].digest
    requires id in s.rows && id in s.hand[webhook].ids && s.hand[webhook].ids[0] in s.rows
    ensures var carrier := s.rows[s.hand[webhook].ids[0]];
            var t := Step(s, Finish(webhook, Failing(next), true), max);
            && (t.rows[id].status.Dead? <==> carrier.attempt + 1 >= max)
            && t.rows[id].attempt == s.rows[id].attempt + 1
  {
  }

  /**
    What a digest does to the budget of one of its rows, the claimed one
    included. After a failure the row is in its budget exactly when the claimed
    row was out of sends, so that all of them die, or the row has one to spare;
    every other outcome keeps a row in its budget.
   */
  lemma DigestKeepsBudgetIff(s: State, webhook: int, outcome: Outcome, max: nat, id: int)
    requires Inv(s, max) && webhook in s.hand && s.hand[webhook].digest && id in s.rows && id in s.hand[webhook].ids
    ensures var t := Step(s, Finish(webhook, outcome, true), max);
            var spared := s.hand[webhook].attempt + 1 >= max || s.rows[id].attempt + 1 < max + s.retried[id];
            && (outcome.Failing? ==> ((Unsettled(t.rows[id]) ==> t.rows[id].attempt < max + t.retried[id]) <==> spared))
            && (Affordable(s, id, max) ==> (Affordable(t, id, max) <==> (outcome.Failing? ==> spared)))
  {
    assert HandSound(s, webhook);
  }

  /** The event is no failing digest in which the row overruns its budget. */
  predicate Spares(s: State, e: Event, max: nat, id: int) {
    e.Finish? && e.webhook in s.hand && e.stored && e.outcome.Failing? && s.hand[e.webhook].digest && id in s.hand[e.webhook].ids
    && id in s.rows && id in s.retried ==>
      s.hand[e.webhook].attempt + 1 >= max || s.rows[id].attempt + 1 < max + s.retried[id]
  }

  /** That is the only way out of the budget: one step keeps a row in it exactly when it spares the row. */
  lemma StepKeepsBudgetIff(s: State, e: Event, max: nat, id: int)
    requires Inv(s, max) && max > 0 && Enabled(s, e) && Affordable(s, id, max)
    ensures Affordable(Step(s, e, max), id, max) <==> Spares(s, e, max, id)
  {
    if e.Finish? && id in s.rows {
      assert HandSound(s, e.webhook) && Counted(s, id);
      if e.stored && id in s.hand[e.webhook].ids {
        assert Unsettled(s.rows[id]);
      }
    }
  }

  ghost predicate AlwaysSpares(s: State, run: seq<Event>, max: nat, id: int)
    requires Runs(s, run, max)
    decreases |run|
  {
    run == [] || (Spares(s, run[0], max, id) && AlwaysSpares(Step(s, run[0], max), run[1..], max, id))
  }

  /** In budget after every step of the run. */
  ghost predicate AlwaysAffordable(s: State, run: seq<Event>, max: nat, id: int)
    requires Runs(s, run, max)
    decreases |run|
  {
    Affordable(s, id, max) && (run == [] || AlwaysAffordable(Step(s, run[0], max), run[1..], max, id))
  }

  /** Over whole runs, digests included, a row keeps its budget throughout if and only if every step spares it. */
  lemma {:induction false} RunKeepsBudgetIff(s: State, run: seq<Event>, max: nat, id: int)
    requires Inv(s, max) && max > 0 && Runs(s, run, max) && Affordable(s, id, max)
    ensures AlwaysAffordable(s, run, max, id) <==> AlwaysSpares(s, run, max, id)
    decreases |run|
  {
    if run != [] {
      StepKeepsBudgetIff(s, run[0], max, id);
      StepKeeps(s, run[0], max);
      if Spares(s, run[0], max, id) {
        RunKeepsBudgetIff(Step(s, run[0], max), run[1..], max, id);
      }
    }
  }

  /** A digest of row 2 fails. */
  const FIRST_DIGEST: seq<Event> := [Enqueue(2, 7, 100, 0), Claim(7, [2], true, 0), Finish(7, Failing(9), true)]

  /** Row 3 comes, is claimed first, takes row 2 along, and fails as well. */
  const SECOND_DIGEST: seq<Event> := [Enqueue(3, 7, 101, 5), Claim(7, [3, 2], true, 9), Finish(7, Failing(20), true)]

  const ONCE_FAILED: State := State(map[2 := Log(7, 100, Failed, 1, Some(9))], map[], map[2 := 1], map[2 := 0], {})

  lemma ThreeSteps(s: State, r: seq<Event>, max: nat)
    requires |r| == 3 && Enabled(s, r[0]) && Enabled(Step(s, r[0], max), r[1])
    requires Enabled(Step(Step(s, r[0], max), r[1], max), r[2])
    ensures Runs(s, r, max) && After(s, r, max) == Step(Step(Step(s, r[0], max), r[1], max), r[2], max)
  {
    var s1 := Step(s, r[0], max);
    var s2 := Step(s1, r[1], max);
    assert r[2..][1..] == [] && Runs(Step(s2, r[2], max), [], max);
    assert Runs(s2, r[2..], max) && After(s2, r[2..], max) == Step(s2, r[2], max);
    assert r[1..][1..] == r[2..];
  }

  lemma OneDigestFails()
    ensures Runs(EMPTY, FIRST_DIGEST, 2) && After(EMPTY, FIRST_DIGEST, 2) == ONCE_FAILED
  {
    var s1 := Step(EMPTY, FIRST_DIGEST[0], 2);
    assert FirstDue(s1, 2, 7, 0);
    var s2 := Step(s1, FIRST_DIGEST[1], 2);
    assert Step(s2, FIRST_DIGEST[2], 2) == ONCE_FAILED;
    ThreeSteps(EMPTY, FIRST_DIGEST, 2);
  }

  lemma AnotherDigestFails()
    ensures Runs(ONCE_FAILED, SECOND_DIGEST, 2)
    ensures var s := After(ONCE_FAILED, SECOND_DIGEST, 2);
            2 in s.rows && s.rows[2] == Log(7, 100, Failed, 2, Some(20)) && s.retried == map[2 := 0, 3 := 0]
  {
  }

  lemma {:induction false} RunsJoin(s: State, a: seq<Event>, b: seq<Event>, max: nat)
    requires Runs(s, a, max) && Runs(After(s, a, max), b, max)
    ensures Runs(s, a + b, max) && After(s, a + b, max) == After(After(s, a, max), b, max)
    decreases |a|
  {
    if a == [] {
      assert a + b == b;
    } else {
      assert (a + b)[1..] == a[1..] + b;
      RunsJoin(Step(s, a[0], max), a[1..], b, max);
    }
  }

  /** So the budget does not hold for digests: with a maximum of two and no manual retry, a row that failed twice is still alive. */
  lemma DigestOutlivesBudget()
    ensures Runs(EMPTY, FIRST_DIGEST + SECOND_DIGEST, 2)
    ensures var s := After(EMPTY, FIRST_DIGEST + SECOND_DIGEST, 2);
            2 in s.rows && s.rows[2].attempt == 2 && s.rows[2].status.Failed? && 2 in s.retried && s.retried[2] == 0
  {
    OneDigestFails();
    AnotherDigestFails();
    RunsJoin(EMPTY, FIRST_DIGEST, SECOND_DIGEST, 2);
  }
}
