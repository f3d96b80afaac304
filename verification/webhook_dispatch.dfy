/**
  The webhook dispatcher and its workers, every interleaving of them. The
  rows stay due in the table while they are delivered, so the dispatcher may
  be offered any row at any time; only the in-flight set and the pause set
  keep a webhook to one delivery at a time and out of a 429.

  The dispatcher reads the in-flight set first and the pauses second; a
  worker pauses first and leaves the in-flight set second.
 */
module WebhookDispatch {
  import opened Prelude
  import opened Inflight

  /** A worker's delivery: on its way, answered with 429, or its row written (or not). */
  datatype Phase = Delivering | Flooded | Settled(stored: bool)

  datatype Delivery = Delivery(webhook: int, phase: Phase)

  datatype Dispatcher =
    | Resting
    | SawInflight(at: int, excluded: set<int>)
    | SawPauses(at: int, excluded: set<int>)
    | Sending(claimedAt: int, rest: seq<int>, hand: Option<int>)

  /** A row is known by its webhook; failedAt remembers the last status write that failed. */
  datatype State = State(now: int, polls: map<int, Poll>, pauses: map<int, int>, dispatcher: Dispatcher,
                         channel: seq<int>, busy: map<nat, Delivery>, failedAt: map<int, int>)

  datatype Action =
    | Tick(d: nat)
    | ReadInflight
    | ReadPauses
    | Claim(webhooks: seq<int>)
    | StartNext
    | Push
    | Rest
    | Receive(worker: nat)
    | Flood(worker: nat, until: int)
    | Settle(worker: nat, stored: bool)
    | Release(worker: nat)

  datatype Config = Config(capacity: nat, grace: int)

  function Init(): State {
    State(0, map[], map[], Resting, [], map[], map[])
  }

  predicate InPhase(s: State, w: nat, delivering: bool) {
    w in s.busy && if delivering then s.busy[w].phase.Delivering? else !s.busy[w].phase.Settled?
  }

  ghost predicate Enabled(c: Config, s: State, a: Action) {
    match a
    case Tick(d) => true
    case ReadInflight => s.dispatcher.Resting?
    case ReadPauses => s.dispatcher.SawInflight?
    case Claim(ws) => s.dispatcher.SawPauses? && Distinct(ws) && forall i :: 0 <= i < |ws| ==> ws[i] !in s.dispatcher.excluded
    case StartNext => s.dispatcher.Sending? && s.dispatcher.hand.None? && s.dispatcher.rest != []
    case Push => s.dispatcher.Sending? && s.dispatcher.hand.Some? && |s.channel| < c.capacity
    case Rest => s.dispatcher.Sending? && s.dispatcher.hand.None? && s.dispatcher.rest == []
    case Receive(w) => w !in s.busy && s.channel != []
    case Flood(w, u) => InPhase(s, w, true)
    case Settle(w, stored) => InPhase(s, w, false)
    case Release(w) => w in s.busy && s.busy[w].phase.Settled?
  }

  ghost function Step(c: Config, s: State, a: Action): State
    requires Enabled(c, s, a)
  {
    match a
    case Tick(d) => s.(now := s.now + d)
    case ReadInflight =>
      s.(dispatcher := SawInflight(s.now, Excluded(s.polls, 0, c.grace, s.now)), polls := Apply(s.polls, c.grace, Sweep(s.now)))
    case ReadPauses =>
      var at := s.dispatcher.at;
      s.(dispatcher := SawPauses(at, s.dispatcher.excluded + Live(s.pauses, at).Keys), pauses := ApplyPause(s.pauses, Expire(at)))
    case Claim(ws) => s.(dispatcher := Sending(s.now, ws, None))
    case StartNext =>
      var d := s.dispatcher;
      s.(dispatcher := Sending(d.claimedAt, d.rest[1..], Some(d.rest[0])), polls := Apply(s.polls, c.grace, Start(d.rest[0], d.claimedAt)))
    case Push => s.(dispatcher := s.dispatcher.(hand := None), channel := s.channel + [s.dispatcher.hand.value])
    case Rest => s.(dispatcher := Resting)
    case Receive(w) => s.(channel := s.channel[1..], busy := s.busy[w := Delivery(s.channel[0], Delivering)])
    case Flood(w, u) =>
      s.(busy := s.busy[w := s.busy[w].(phase := Flooded)], pauses := ApplyPause(s.pauses, Pause(s.busy[w].webhook, u)))
    case Settle(w, stored) => s.(busy := s.busy[w := s.busy[w].(phase := Settled(stored))])
    case Release(w) =>
      var id := s.busy[w].webhook;
      if s.busy[w].phase.stored then s.(busy := s.busy - {w}, polls := Apply(s.polls, c.grace, Forget(id)))
      else s.(busy := s.busy - {w}, polls := Apply(s.polls, c.grace, Done(id, s.now)), failedAt := s.failedAt[id := s.now])
  }

  ghost predicate Runs(c: Config, s: State, run: seq<Action>)
    decreases |run|
  {
    run == [] || (Enabled(c, s, run[0]) && Runs(c, Step(c, s, run[0]), run[1..]))
  }

  ghost function After(c: Config, s: State, run: seq<Action>): State
    requires Runs(c, s, run)
    decreases |run|
  {
    if run == [] then s else After(c, Step(c, s, run[0]), run[1..])
  }

  // -------------------------------------------------------------- the invariant

  function Rows(d: Dispatcher): seq<int> {
    if d.Sending? then (if d.hand.Some? then [d.hand.value] else []) + d.rest else []
  }

  /** Claimed and not yet with a worker, first out first. */
  function Waiting(s: State): seq<int> {
    s.channel + Rows(s.dispatcher)
  }

  /** Waiting and already in the in-flight set. */
  function Registered(s: State): seq<int> {
    s.channel + (if s.dispatcher.Sending? && s.dispatcher.hand.Some? then [s.dispatcher.hand.value] else [])
  }

  predicate Open(s: State, id: int) {
    id in s.polls && s.polls[id].doneAt.None?
  }

  predicate Paused(s: State, id: int) {
    id in s.pauses && s.pauses[id] > s.now
  }

  /** The grace of the last failed status write is over. */
  predicate Cooled(c: Config, s: State, id: int) {
    id in s.failedAt ==> s.failedAt[id] + c.grace <= s.now
  }

  ghost predicate OneEach(s: State) {
    && Distinct(Waiting(s))
    && (forall v, w :: v in s.busy && w in s.busy && s.busy[v].webhook == s.busy[w].webhook ==> v == w)
    && (forall w, i :: w in s.busy && 0 <= i < |Waiting(s)| ==> Waiting(s)[i] != s.busy[w].webhook)
  }

  ghost predicate InflightCovers(s: State) {
    && (forall i :: 0 <= i < |Registered(s)| ==> Open(s, Registered(s)[i]))
    && (forall w :: w in s.busy ==> Open(s, s.busy[w].webhook))
    && (s.dispatcher.SawInflight? || s.dispatcher.SawPauses? ==> s.dispatcher.at <= s.now && s.polls.Keys <= s.dispatcher.excluded)
  }

  ghost predicate PausesHold(s: State) {
    && (s.dispatcher.SawPauses? ==> forall id :: Paused(s, id) ==> id in s.dispatcher.excluded)
    && (forall i :: 0 <= i < |Waiting(s)| ==> !Paused(s, Waiting(s)[i]))
    && (forall w :: w in s.busy && s.busy[w].phase.Delivering? ==> !Paused(s, s.busy[w].webhook))
  }

  ghost predicate GraceHolds(c: Config, s: State) {
    && (forall id :: id in s.failedAt && id !in s.polls ==> Cooled(c, s, id))
    && (forall id :: Open(s, id) ==> Cooled(c, s, id))
    && (forall id :: id in s.failedAt && id in s.polls && s.polls[id].doneAt.Some? ==> s.polls[id].doneAt == Some(s.failedAt[id]))
    && (forall i :: 0 <= i < |Waiting(s)| ==> Cooled(c, s, Waiting(s)[i]))
  }

  ghost predicate Inv(c: Config, s: State) {
    OneEach(s) && InflightCovers(s) && PausesHold(s) && GraceHolds(c, s)
  }

  lemma InitHolds(c: Config)
    ensures Inv(c, Init())
  {
  }

  lemma TickKeeps(c: Config, s: State, d: nat)
    requires Inv(c, s)
    ensures Inv(c, Step(c, s, Tick(d)))
  {
    var t := Step(c, s, Tick(d));
    assert Waiting(t) == Waiting(s) && Registered(t) == Registered(s);
    assert forall id :: Paused(t, id) ==> Paused(s, id);
    assert forall id :: Cooled(c, s, id) ==> Cooled(c, t, id);
    assert forall id :: Open(t, id) == Open(s, id);
  }

  lemma ReadInflightKeeps(c: Config, s: State)
    requires Inv(c, s) && Enabled(c, s, ReadInflight)
    ensures Inv(c, Step(c, s, ReadInflight))
  {
    var t := Step(c, s, ReadInflight);
    assert Waiting(t) == Waiting(s) && Registered(t) == Registered(s);
    assert forall id :: Open(t, id) <==> Open(s, id);
    assert forall id :: Paused(t, id) == Paused(s, id);
    assert forall id :: id in t.polls ==> id in t.dispatcher.excluded;
    forall id | id in s.failedAt && id !in t.polls ensures Cooled(c, t, id) {
      if id in s.polls {
        assert PastGrace(s.polls[id], c.grace, s.now);
      }
    }
  }

  lemma ReadPausesKeeps(c: Config, s: State)
    requires Inv(c, s) && Enabled(c, s, ReadPauses)
    ensures Inv(c, Step(c, s, ReadPauses))
  {
    var t := Step(c, s, ReadPauses);
    assert Waiting(t) == Waiting(s) && Registered(t) == Registered(s);
    assert forall id :: Open(t, id) <==> Open(s, id);
    assert forall id :: Paused(t, id) ==> Paused(s, id) && id in Live(s.pauses, s.dispatcher.at);
  }

  /** Here the reading order pays: what is claimed is neither in flight nor paused. */
  lemma ClaimKeeps(c: Config, s: State, ws: seq<int>)
    requires Inv(c, s) && Enabled(c, s, Claim(ws))
    ensures Inv(c, Step(c, s, Claim(ws)))
    ensures forall i :: 0 <= i < |ws| ==> ws[i] !in s.polls && !Paused(s, ws[i]) && Cooled(c, s, ws[i])
  {
    var t := Step(c, s, Claim(ws));
    forall i | 0 <= i < |ws| ensures ws[i] !in s.polls && !Paused(s, ws[i]) && Cooled(c, s, ws[i]) {
    }
    assert Registered(s) == s.channel && Waiting(s) == s.channel && Waiting(t) == s.channel + ws && Registered(t) == s.channel;
    assert forall id :: Open(t, id) == Open(s, id) && Paused(t, id) == Paused(s, id);
    forall i | 0 <= i < |s.channel| ensures s.channel[i] in s.polls {
      assert Open(s, Registered(s)[i]);
    }
    forall i | 0 <= i < |Waiting(t)| ensures !Paused(t, Waiting(t)[i]) && Cooled(c, t, Waiting(t)[i]) {
      assert i < |s.channel| ==> Waiting(t)[i] == Waiting(s)[i];
    }
  }

  lemma StartNextKeeps(c: Config, s: State)
    requires Inv(c, s) && Enabled(c, s, StartNext)
    ensures Inv(c, Step(c, s, StartNext))
  {
    var t := Step(c, s, StartNext);
    var id := s.dispatcher.rest[0];
    assert Waiting(t) == Waiting(s);
    assert Waiting(s)[|s.channel|] == id;
    assert Registered(t) == s.channel + [id] && Registered(s) == s.channel;
    assert forall x :: Open(t, x) <==> Open(s, x) || x == id;
    assert forall x :: Paused(t, x) == Paused(s, x) && Cooled(c, t, x) == Cooled(c, s, x);
    forall i | 0 <= i < |Registered(t)| ensures Open(t, Registered(t)[i]) {
      assert i < |s.channel| ==> Registered(t)[i] == Registered(s)[i];
    }
  }

  lemma PushKeeps(c: Config, s: State)
    requires Inv(c, s) && Enabled(c, s, Push)
    ensures Inv(c, Step(c, s, Push))
  {
    var t := Step(c, s, Push);
    assert Waiting(t) == Waiting(s) && Registered(t) == Registered(s);
    assert forall x :: Open(t, x) == Open(s, x) && Paused(t, x) == Paused(s, x) && Cooled(c, t, x) == Cooled(c, s, x);
  }

  lemma RestKeeps(c: Config, s: State)
    requires Inv(c, s) && Enabled(c, s, Rest)
    ensures Inv(c, Step(c, s, Rest))
  {
    var t := Step(c, s, Rest);
    assert Waiting(t) == Waiting(s) && Registered(t) == Registered(s);
    assert forall x :: Open(t, x) == Open(s, x) && Paused(t, x) == Paused(s, x) && Cooled(c, t, x) == Cooled(c, s, x);
  }

  lemma ReceiveShifts(c: Config, s: State, w: nat)
    requires Enabled(c, s, Receive(w))
    ensures var t := Step(c, s, Receive(w));
            Waiting(s) == [s.channel[0]] + Waiting(t) && Registered(s) == [s.channel[0]] + Registered(t)
  {
    HeadOff(s.channel, Rows(s.dispatcher));
    HeadOff(s.channel, if s.dispatcher.Sending? && s.dispatcher.hand.Some? then [s.dispatcher.hand.value] else []);
  }

  lemma HeadOff(a: seq<int>, b: seq<int>)
    requires a != []
    ensures a + b == [a[0]] + (a[1..] + b)
  {
  }

  lemma ReceiveOneEach(c: Config, s: State, w: nat)
    requires OneEach(s) && Enabled(c, s, Receive(w))
    ensures OneEach(Step(c, s, Receive(w)))
  {
    var t := Step(c, s, Receive(w));
    ReceiveShifts(c, s, w);
    forall i | 0 <= i < |Waiting(t)| ensures Waiting(t)[i] == Waiting(s)[i + 1] {
    }
    assert Waiting(s)[0] == s.channel[0];
  }

  lemma ReceiveCovers(c: Config, s: State, w: nat)
    requires InflightCovers(s) && Enabled(c, s, Receive(w))
    ensures InflightCovers(Step(c, s, Receive(w)))
  {
    var t := Step(c, s, Receive(w));
    ReceiveShifts(c, s, w);
    assert Registered(s)[0] == s.channel[0];
    forall i | 0 <= i < |Registered(t)| ensures Registered(t)[i] == Registered(s)[i + 1] {
    }
    assert forall x :: Open(t, x) == Open(s, x);
  }

  lemma ReceivePauses(c: Config, s: State, w: nat)
    requires PausesHold(s) && Enabled(c, s, Receive(w))
    ensures PausesHold(Step(c, s, Receive(w)))
  {
    var t := Step(c, s, Receive(w));
    ReceiveShifts(c, s, w);
    assert Waiting(s)[0] == s.channel[0];
    forall i | 0 <= i < |Waiting(t)| ensures Waiting(t)[i] == Waiting(s)[i + 1] {
    }
    assert forall x :: Paused(t, x) == Paused(s, x);
  }

  lemma ReceiveGrace(c: Config, s: State, w: nat)
    requires GraceHolds(c, s) && Enabled(c, s, Receive(w))
    ensures GraceHolds(c, Step(c, s, Receive(w)))
  {
    var t := Step(c, s, Receive(w));
    ReceiveShifts(c, s, w);
    forall i | 0 <= i < |Waiting(t)| ensures Waiting(t)[i] == Waiting(s)[i + 1] {
    }
    assert forall x :: Open(t, x) == Open(s, x) && Cooled(c, t, x) == Cooled(c, s, x);
  }

  lemma ReceiveKeeps(c: Config, s: State, w: nat)
    requires Inv(c, s) && Enabled(c, s, Receive(w))
    ensures Inv(c, Step(c, s, Receive(w)))
  {
    ReceiveOneEach(c, s, w);
    ReceiveCovers(c, s, w);
    ReceivePauses(c, s, w);
    ReceiveGrace(c, s, w);
  }

  lemma FloodKeeps(c: Config, s: State, w: nat, u: int)
    requires Inv(c, s) && Enabled(c, s, Flood(w, u))
    ensures Inv(c, Step(c, s, Flood(w, u)))
  {
    var t := Step(c, s, Flood(w, u));
    var id := s.busy[w].webhook;
    assert Waiting(t) == Waiting(s) && Registered(t) == Registered(s);
    assert forall x :: Open(t, x) == Open(s, x) && Cooled(c, t, x) == Cooled(c, s, x);
    assert forall x :: x != id ==> Paused(t, x) == Paused(s, x);
    assert Open(s, id);
    assert forall v :: v in s.busy ==> t.busy[v].webhook == s.busy[v].webhook;
  }

  lemma SettleKeeps(c: Config, s: State, w: nat, stored: bool)
    requires Inv(c, s) && Enabled(c, s, Settle(w, stored))
    ensures Inv(c, Step(c, s, Settle(w, stored)))
  {
    var t := Step(c, s, Settle(w, stored));
    assert Waiting(t) == Waiting(s) && Registered(t) == Registered(s);
    assert forall x :: Open(t, x) == Open(s, x) && Paused(t, x) == Paused(s, x) && Cooled(c, t, x) == Cooled(c, s, x);
    assert forall v :: v in s.busy ==> t.busy[v].webhook == s.busy[v].webhook;
  }

  /** The released webhook was open and cooled, and it is nowhere else. */
  lemma ReleasedAlone(c: Config, s: State, w: nat)
    requires Inv(c, s) && Enabled(c, s, Release(w))
    ensures var id := s.busy[w].webhook;
            && Open(s, id) && Cooled(c, s, id) && id !in Waiting(s) && id !in Registered(s)
            && forall v :: v in s.busy && v != w ==> s.busy[v].webhook != id
  {
    var id := s.busy[w].webhook;
    assert Registered(s) <= Waiting(s);
    assert forall i :: 0 <= i < |Waiting(s)| ==> Waiting(s)[i] != id;
  }

  lemma ReleaseGrace(c: Config, s: State, w: nat)
    requires Inv(c, s) && Enabled(c, s, Release(w))
    ensures GraceHolds(c, Step(c, s, Release(w)))
  {
    var t := Step(c, s, Release(w));
    var id := s.busy[w].webhook;
    ReleasedAlone(c, s, w);
    assert Waiting(t) == Waiting(s);
    assert forall x :: Open(t, x) <==> Open(s, x) && x != id;
    assert forall x :: x != id ==> Cooled(c, t, x) == Cooled(c, s, x);
    forall i | 0 <= i < |Waiting(t)| ensures Cooled(c, t, Waiting(t)[i]) {
      assert Waiting(s)[i] in Waiting(s);
    }
  }

  lemma ReleaseKeeps(c: Config, s: State, w: nat)
    requires Inv(c, s) && Enabled(c, s, Release(w))
    ensures Inv(c, Step(c, s, Release(w)))
  {
    var t := Step(c, s, Release(w));
    var id := s.busy[w].webhook;
    ReleasedAlone(c, s, w);
    ReleaseGrace(c, s, w);
    assert Waiting(t) == Waiting(s) && Registered(t) == Registered(s);
    assert forall x :: Open(t, x) <==> Open(s, x) && x != id;
    assert forall x :: Paused(t, x) == Paused(s, x);
    assert forall v :: v in t.busy ==> v in s.busy && v != w && t.busy[v] == s.busy[v];
    forall i | 0 <= i < |Registered(t)| ensures Open(t, Registered(t)[i]) {
      assert Registered(s)[i] in Registered(s);
    }
  }

  lemma StepKeeps(c: Config, s: State, a: Action)
    requires Inv(c, s) && Enabled(c, s, a)
    ensures Inv(c, Step(c, s, a))
  {
    match a
    case Tick(d) => TickKeeps(c, s, d);
    case ReadInflight => ReadInflightKeeps(c, s);
    case ReadPauses => ReadPausesKeeps(c, s);
    case Claim(ws) => ClaimKeeps(c, s, ws);
    case StartNext => StartNextKeeps(c, s);
    case Push => PushKeeps(c, s);
    case Rest => RestKeeps(c, s);
    case Receive(w) => ReceiveKeeps(c, s, w);
    case Flood(w, u) => FloodKeeps(c, s, w, u);
    case Settle(w, stored) => SettleKeeps(c, s, w, stored);
    case Release(w) => ReleaseKeeps(c, s, w);
  }

  lemma {:induction false} RunKeeps(c: Config, s: State, run: seq<Action>)
    requires Inv(c, s) && Runs(c, s, run)
    ensures Inv(c, After(c, s, run))
    decreases |run|
  {
    if run != [] {
      StepKeeps(c, s, run[0]);
      RunKeeps(c, Step(c, s, run[0]), run[1..]);
    }
  }

  // ---------------------------------------------------------------- the promises

  /** How many deliveries of a webhook are claimed, in the channel or with a worker. */
  function Deliveries(s: State, id: int): nat {
    |set i | 0 <= i < |Waiting(s)| && Waiting(s)[i] == id| + |set w | w in s.busy && s.busy[w].webhook == id|
  }

  lemma AtMostOneDelivery(s: State, id: int)
    requires OneEach(s)
    ensures Deliveries(s, id) <= 1
  {
    var waiting := set i | 0 <= i < |Waiting(s)| && Waiting(s)[i] == id;
    var busy := set w | w in s.busy && s.busy[w].webhook == id;
    AtMostOne(waiting);
    AtMostOne(busy);
    if i :| 0 <= i < |Waiting(s)| && Waiting(s)[i] == id {
      forall w ensures w !in busy {
        assert w in s.busy ==> Waiting(s)[i] != s.busy[w].webhook;
      }
      assert busy == {};
    } else {
      assert waiting == {};
    }
  }

  /**
    In every interleaving: at most one delivery per webhook, none of them
    claimed, queued or under way while the webhook waits out a 429, and none
    claimed during the grace of a failed status write.
   */
  lemma OneDeliveryNoFlood(c: Config, run: seq<Action>, id: int)
    requires Runs(c, Init(), run)
    ensures var s := After(c, Init(), run);
            && Deliveries(s, id) <= 1
            && (Paused(s, id) || !Cooled(c, s, id) ==>
                  && id !in Waiting(s)
                  && (forall ws :: Enabled(c, s, Claim(ws)) ==> id !in ws))
            && (forall w :: w in s.busy && s.busy[w] == Delivery(id, Delivering) ==> !Paused(s, id))
  {
    InitHolds(c);
    RunKeeps(c, Init(), run);
    var s := After(c, Init(), run);
    AtMostOneDelivery(s, id);
    forall ws | Enabled(c, s, Claim(ws)) && id in ws ensures !Paused(s, id) && Cooled(c, s, id) {
      ClaimKeeps(c, s, ws);
    }
  }

  // ---------------------------------------------------- the other reading order

  /**
    Had the dispatcher read the pauses first, a worker that pauses and
    forgets in between would be seen in neither set, and the claim would hit
    a webhook that is waiting out its 429.
   */
  lemma OtherOrderHitsTheFlood(c: Config, s: State, w: nat, u: int)
    requires Inv(c, s) && InPhase(s, w, true) && u > s.now
    ensures var id := s.busy[w].webhook;
            var pausesRead := Live(s.pauses, s.now).Keys;
            var t := Step(c, Step(c, Step(c, s, Flood(w, u)), Settle(w, true)), Release(w));
            var inflightRead := Excluded(t.polls, 0, c.grace, t.now);
            id !in pausesRead + inflightRead && Paused(t, id)
  {
  }
}
