/**
  The feed dispatcher and its worker pool as a timed machine: P workers, a
  channel of capacity 2P, and the in-flight set with its stale rule. A feed
  stays due while it is polled, so nothing but that set keeps it from being
  claimed twice.

  Time passes only in Tick. A free worker takes a waiting job at once (time
  does not pass while one could), and a poll that runs is over within the
  fetch timeout. The dispatcher reads the in-flight set first and claims
  later; whatever happens in between is a step of somebody else.
 */
module PollDispatch {
  import opened Prelude
  import opened Inflight

  datatype Config = Config(workers: nat, timeout: nat, staleAfter: int, grace: int)

  datatype Job = Job(feed: int, claimedAt: int, beganAt: int, worker: nat, endedAt: Option<int>)

  /** What the dispatcher knows between its look at the in-flight set and its claim. */
  datatype View = Blind | Saw(excluded: set<int>, room: nat)

  /** jobs is the history of claims; the first `begun` of them have left the channel. */
  datatype State = State(now: int, jobs: seq<Job>, begun: nat, busy: seq<Option<nat>>, polls: map<int, Poll>, view: View)

  datatype Action = Tick(d: nat) | Look | Claim(feeds: seq<int>) | Begin(worker: nat) | End(worker: nat)

  function Capacity(c: Config): nat {
    2 * c.workers
  }

  function Init(c: Config): State {
    State(0, [], 0, seq(c.workers, i => None), map[], Blind)
  }

  predicate Idle(s: State, w: nat) {
    w < |s.busy| && s.busy[w].None?
  }

  predicate Works(s: State, w: nat) {
    w < |s.busy| && s.busy[w].Some? && s.busy[w].value < |s.jobs|
  }

  function JobOf(s: State, w: nat): Job
    requires Works(s, w)
  {
    s.jobs[s.busy[w].value]
  }

  ghost predicate Enabled(c: Config, s: State, a: Action) {
    match a
    case Tick(d) =>
      && (s.begun < |s.jobs| ==> forall w :: 0 <= w < |s.busy| ==> !Idle(s, w))
      && (forall w :: 0 <= w < |s.busy| && Works(s, w) ==> s.now + d <= JobOf(s, w).beganAt + c.timeout)
    case Look => s.view.Blind? && |s.jobs| < s.begun + Capacity(c)
    case Claim(feeds) =>
      s.view.Saw? && Distinct(feeds) && |feeds| <= Min(c.workers, s.view.room) && forall i :: 0 <= i < |feeds| ==> feeds[i] !in s.view.excluded
    case Begin(w) => Idle(s, w) && s.begun < |s.jobs|
    case End(w) => Works(s, w)
  }

  function NewJobs(feeds: seq<int>, now: int): (r: seq<Job>)
    ensures |r| == |feeds| && forall i :: 0 <= i < |r| ==> r[i] == Job(feeds[i], now, 0, 0, None)
  {
    seq(|feeds|, i requires 0 <= i < |feeds| => Job(feeds[i], now, 0, 0, None))
  }

  ghost function Step(c: Config, s: State, a: Action): State
    requires Enabled(c, s, a)
  {
    match a
    case Tick(d) => s.(now := s.now + d)
    case Look =>
      s.(view := Saw(Excluded(s.polls, c.staleAfter, c.grace, s.now), Capacity(c) - Min(|s.jobs| - s.begun, Capacity(c))),
         polls := Apply(s.polls, c.grace, Sweep(s.now)))
    case Claim(feeds) =>
      s.(jobs := s.jobs + NewJobs(feeds, s.now),
         polls := s.polls + (map f | f in feeds :: Poll(s.now, None)),
         view := Blind)
    case Begin(w) =>
      s.(jobs := s.jobs[s.begun := s.jobs[s.begun].(beganAt := s.now, worker := w)],
         busy := s.busy[w := Some(s.begun)],
         begun := s.begun + 1)
    case End(w) =>
      s.(jobs := s.jobs[s.busy[w].value := JobOf(s, w).(endedAt := Some(s.now))],
         busy := s.busy[w := None],
         polls := Apply(s.polls, c.grace, Done(JobOf(s, w).feed, s.now)))
  }

  ghost predicate Runs(c: Config, s: State, run: seq<Action>)
    decreases |run|
  {
    run == [] || (Enabled(c, s, run[0]) && Runs(c, Step(c, s, run[0]), run[1..]))
  }

  ghost function After(c: Config, s: State, run: seq<Action>): State
    requires Runs(c, s, run)
    decreases |run|
  {
    if run == [] then s else After(c, Step(c, s, run[0]), run[1..])
  }

  // -------------------------------------------------------------- the invariants

  predicate Active(s: State, j: int) {
    0 <= j < |s.jobs| && s.jobs[j].endedAt.None?
  }

  ghost predicate Shape(c: Config, s: State) {
    && |s.busy| == c.workers && s.begun <= |s.jobs| <= s.begun + Capacity(c)
    && (forall w :: 0 <= w < |s.busy| && s.busy[w].Some? ==>
          s.busy[w].value < s.begun && JobOf(s, w).worker == w && JobOf(s, w).endedAt.None?)
    && (forall j :: 0 <= j < s.begun && s.jobs[j].endedAt.None? ==> s.jobs[j].worker < c.workers && s.busy[s.jobs[j].worker] == Some(j))
    && (forall j :: s.begun <= j < |s.jobs| ==> s.jobs[j].endedAt.None?)
    && (s.view.Saw? ==> |s.jobs| + s.view.room <= s.begun + Capacity(c))
  }

  /** A channel of 2P jobs: whoever is 2P places behind was claimed after this one began. */
  ghost predicate ClaimedBehind(c: Config, s: State) {
    forall j, k :: 0 <= j < s.begun <= |s.jobs| && j + 2 * c.workers <= k < |s.jobs| ==> s.jobs[j].beganAt <= s.jobs[k].claimedAt
  }

  /** Whoever is P places behind was claimed at most one timeout before this one began. */
  ghost predicate BeganSoon(c: Config, s: State) {
    forall j, k :: 0 <= j < s.begun <= |s.jobs| && j + c.workers <= k < |s.jobs| ==> s.jobs[j].beganAt <= s.jobs[k].claimedAt + c.timeout
  }

  ghost predicate WaitsBounded(c: Config, s: State) {
    && (forall k :: s.begun + c.workers <= k < |s.jobs| ==> s.now <= s.jobs[k].claimedAt + c.timeout)
    && (forall k :: s.begun <= k < |s.jobs| ==> s.now <= s.jobs[k].claimedAt + 2 * c.timeout)
  }

  ghost predicate PollsBounded(c: Config, s: State) {
    && (forall j :: 0 <= j < s.begun <= |s.jobs| ==>
          && s.jobs[j].beganAt <= s.now && s.jobs[j].beganAt <= s.jobs[j].claimedAt + 2 * c.timeout
          && (s.jobs[j].endedAt.None? ==> s.now <= s.jobs[j].beganAt + c.timeout)
          && (s.jobs[j].endedAt.Some? ==> s.jobs[j].endedAt.value <= s.jobs[j].beganAt + c.timeout))
    && (forall j :: 0 <= j < |s.jobs| ==> s.jobs[j].claimedAt <= s.now)
  }

  ghost predicate Timing(c: Config, s: State) {
    Shape(c, s) && ClaimedBehind(c, s) && BeganSoon(c, s) && WaitsBounded(c, s) && PollsBounded(c, s)
  }

  /** The in-flight set is exactly the active jobs, one per feed, and the dispatcher has not missed one. */
  ghost predicate InflightExact(s: State) {
    && (forall j :: Active(s, j) ==> s.jobs[j].feed in s.polls && s.polls[s.jobs[j].feed] == Poll(s.jobs[j].claimedAt, None))
    && (forall i, j :: Active(s, i) && Active(s, j) && s.jobs[i].feed == s.jobs[j].feed ==> i == j)
    && (forall f :: f in Running(s.polls) ==> exists j :: Active(s, j) && s.jobs[j].feed == f)
    && (s.view.Saw? ==> forall j :: Active(s, j) ==> s.jobs[j].feed in s.view.excluded)
  }

  // ---------------------------------------------------------------- the queue

  function Below(n: nat): (r: set<int>)
    ensures |r| == n && forall x :: x in r <==> 0 <= x < n
  {
    if n == 0 then {} else Below(n - 1) + {n - 1}
  }

  /** P different numbers below n: one of them is at most n − P. */
  lemma OneIsOld(s: seq<int>, n: nat)
    requires Distinct(s) && |s| > 0 && forall i :: 0 <= i < |s| ==> 0 <= s[i] < n
    ensures exists i :: 0 <= i < |s| && s[i] + |s| <= n
  {
    if forall i :: 0 <= i < |s| ==> s[i] + |s| > n {
      DistinctSize(s, |s|);
      assert s[..|s|] == s;
      var all := Elements(s);
      var low := Below(if n < |s| then 0 else n - |s| + 1);
      if n >= |s| {
        assert all !! low;
        assert all + low <= Below(n);
        SubsetSize(all + low, Below(n));
      } else {
        SubsetSize(all, Below(n));
      }
      assert false;
    }
  }

  /** While anything waits, the oldest running poll began at least P claims ago. */
  lemma OldestRunning(c: Config, s: State) returns (w: nat)
    requires Shape(c, s) && c.workers > 0 && forall w :: 0 <= w < |s.busy| ==> !Idle(s, w)
    ensures w < |s.busy| && Works(s, w) && s.busy[w].value + c.workers <= s.begun
  {
    var js: seq<int> := seq(|s.busy|, i requires 0 <= i < |s.busy| => if s.busy[i].Some? then s.busy[i].value else 0);
    forall i, j | 0 <= i < j < |js| ensures js[i] != js[j] {
      assert !Idle(s, i) && !Idle(s, j);
      assert JobOf(s, i).worker == i && JobOf(s, j).worker == j;
    }
    forall i | 0 <= i < |js| ensures 0 <= js[i] < s.begun {
      assert !Idle(s, i);
    }
    OneIsOld(js, s.begun);
    w :| 0 <= w < |js| && js[w] + |js| <= s.begun;
    assert !Idle(s, w);
  }

  lemma TickKeepsWaits(c: Config, s: State, d: nat)
    requires Timing(c, s) && c.workers > 0 && Enabled(c, s, Tick(d))
    ensures WaitsBounded(c, Step(c, s, Tick(d)))
  {
    if s.begun < |s.jobs| {
      var w := OldestRunning(c, s);
      assert s.now + d <= s.jobs[s.busy[w].value].beganAt + c.timeout;
    }
  }

  lemma TickKeepsPolls(c: Config, s: State, d: nat)
    requires Shape(c, s) && PollsBounded(c, s) && Enabled(c, s, Tick(d))
    ensures PollsBounded(c, Step(c, s, Tick(d)))
  {
    forall j | 0 <= j < s.begun && s.jobs[j].endedAt.None? ensures s.now + d <= s.jobs[j].beganAt + c.timeout {
      assert Works(s, s.jobs[j].worker) && JobOf(s, s.jobs[j].worker) == s.jobs[j];
    }
  }

  lemma TickKeepsTiming(c: Config, s: State, d: nat)
    requires Timing(c, s) && c.workers > 0 && Enabled(c, s, Tick(d))
    ensures Timing(c, Step(c, s, Tick(d)))
  {
    TickKeepsWaits(c, s, d);
    TickKeepsPolls(c, s, d);
  }

  lemma LookKeepsTiming(c: Config, s: State)
    requires Timing(c, s) && Enabled(c, s, Look)
    ensures Timing(c, Step(c, s, Look))
  {
  }

  lemma ClaimKeepsShape(c: Config, s: State, feeds: seq<int>)
    requires Shape(c, s) && Enabled(c, s, Claim(feeds))
    ensures Shape(c, Step(c, s, Claim(feeds)))
  {
  }

  lemma ClaimKeepsTiming(c: Config, s: State, feeds: seq<int>)
    requires Timing(c, s) && Enabled(c, s, Claim(feeds))
    ensures Timing(c, Step(c, s, Claim(feeds)))
  {
    var t := Step(c, s, Claim(feeds));
    ClaimKeepsShape(c, s, feeds);
    assert forall j :: 0 <= j < |s.jobs| ==> t.jobs[j] == s.jobs[j];
    NewClaimsFit(c, s, t);
  }

  /** Jobs that are claimed now, within the capacity, break no bound. */
  lemma NewClaimsFit(c: Config, s: State, t: State)
    requires ClaimedBehind(c, s) && BeganSoon(c, s) && WaitsBounded(c, s) && PollsBounded(c, s)
    requires t.now == s.now && t.begun == s.begun <= |s.jobs| <= |t.jobs| <= s.begun + 2 * c.workers
    requires forall j :: 0 <= j < |s.jobs| ==> t.jobs[j] == s.jobs[j]
    requires forall j :: |s.jobs| <= j < |t.jobs| ==> t.jobs[j].claimedAt == s.now
    ensures ClaimedBehind(c, t) && BeganSoon(c, t) && WaitsBounded(c, t) && PollsBounded(c, t)
  {
  }

  lemma BeginKeepsShape(c: Config, s: State, w: nat)
    requires Shape(c, s) && Enabled(c, s, Begin(w))
    ensures Shape(c, Step(c, s, Begin(w)))
  {
  }

  lemma BeginKeepsTiming(c: Config, s: State, w: nat)
    requires Timing(c, s) && Enabled(c, s, Begin(w))
    ensures Timing(c, Step(c, s, Begin(w)))
  {
    var t := Step(c, s, Begin(w));
    BeginKeepsShape(c, s, w);
    assert t.jobs[s.begun].claimedAt == s.jobs[s.begun].claimedAt && t.jobs[s.begun].beganAt == s.now && t.jobs[s.begun].endedAt.None?;
    OnlyBegunMoved(c, s, t, s.begun);
  }

  /** All but the job that just began keep their times, and that one began now. */
  lemma OnlyBegunMoved(c: Config, s: State, t: State, b: nat)
    requires ClaimedBehind(c, s) && BeganSoon(c, s) && WaitsBounded(c, s) && PollsBounded(c, s) && s.begun == b < |s.jobs| <= b + 2 * c.workers
    requires t.now == s.now && t.begun == b + 1 && |t.jobs| == |s.jobs| && forall j :: 0 <= j < |s.jobs| && j != b ==> t.jobs[j] == s.jobs[j]
    requires t.jobs[b].claimedAt == s.jobs[b].claimedAt && t.jobs[b].beganAt == s.now && t.jobs[b].endedAt.None?
    ensures ClaimedBehind(c, t) && BeganSoon(c, t) && WaitsBounded(c, t) && PollsBounded(c, t)
  {
    BegunWaits(c, s, t, b);
    assert forall j :: 0 <= j < |s.jobs| ==> t.jobs[j].claimedAt == s.jobs[j].claimedAt;
    assert forall j :: 0 <= j < b ==> t.jobs[j].beganAt == s.jobs[j].beganAt;
  }

  lemma BegunWaits(c: Config, s: State, t: State, b: nat)
    requires WaitsBounded(c, s) && PollsBounded(c, s) && s.begun == b < |s.jobs|
    requires t.now == s.now && t.begun == b + 1 && |t.jobs| == |s.jobs| && forall j :: 0 <= j < |s.jobs| && j != b ==> t.jobs[j] == s.jobs[j]
    requires t.jobs[b].claimedAt == s.jobs[b].claimedAt && t.jobs[b].beganAt == s.now && t.jobs[b].endedAt.None?
    ensures WaitsBounded(c, t) && PollsBounded(c, t)
  {
  }

  lemma EndKeepsShape(c: Config, s: State, w: nat)
    requires Shape(c, s) && Enabled(c, s, End(w))
    ensures Shape(c, Step(c, s, End(w)))
  {
  }

  lemma EndKeepsTiming(c: Config, s: State, w: nat)
    requires Timing(c, s) && Enabled(c, s, End(w))
    ensures Timing(c, Step(c, s, End(w)))
  {
    var t := Step(c, s, End(w));
    var e := s.busy[w].value;
    EndKeepsShape(c, s, w);
    assert s.jobs[e].endedAt.None? && e < s.begun by { assert JobOf(s, w).worker == w; }
    assert forall j :: 0 <= j < |s.jobs| ==> t.jobs[j].claimedAt == s.jobs[j].claimedAt && t.jobs[j].beganAt == s.jobs[j].beganAt;
    assert forall j :: 0 <= j < |s.jobs| && j != e ==> t.jobs[j].endedAt == s.jobs[j].endedAt;
    SameTimes(c, s, t);
  }

  lemma SameTimes(c: Config, s: State, t: State)
    requires ClaimedBehind(c, s) && BeganSoon(c, s) && WaitsBounded(c, s)
    requires t.now == s.now && t.begun == s.begun && |t.jobs| == |s.jobs|
    requires forall j :: 0 <= j < |s.jobs| ==> t.jobs[j].claimedAt == s.jobs[j].claimedAt && t.jobs[j].beganAt == s.jobs[j].beganAt
    ensures ClaimedBehind(c, t) && BeganSoon(c, t) && WaitsBounded(c, t)
  {
  }

  lemma StepKeepsTiming(c: Config, s: State, a: Action)
    requires Timing(c, s) && c.workers > 0 && Enabled(c, s, a)
    ensures Timing(c, Step(c, s, a))
  {
    match a
    case Tick(d) => TickKeepsTiming(c, s, d);
    case Look => LookKeepsTiming(c, s);
    case Claim(feeds) => ClaimKeepsTiming(c, s, feeds);
    case Begin(w) => BeginKeepsTiming(c, s, w);
    case End(w) => EndKeepsTiming(c, s, w);
  }

  // ------------------------------------------------------------- the stale rule

  /** An active job is at most three timeouts old. */
  lemma ActiveIsYoung(c: Config, s: State, j: int)
    requires Timing(c, s) && Active(s, j)
    ensures s.now <= s.jobs[j].claimedAt + 3 * c.timeout
  {
  }

  /** When the stale rule waits longer than that, a look at the in-flight set misses no active job. */
  lemma LookSeesAll(c: Config, s: State)
    requires Timing(c, s) && InflightExact(s) && 3 * c.timeout < c.staleAfter && Enabled(c, s, Look)
    ensures InflightExact(Step(c, s, Look))
  {
    var t := Step(c, s, Look);
    forall j | Active(s, j) ensures s.jobs[j].feed in t.view.excluded && s.jobs[j].feed in t.polls {
      ActiveIsYoung(c, s, j);
    }
    assert forall f :: f in Running(t.polls) ==> f in Running(s.polls);
    assert forall j :: Active(t, j) <==> Active(s, j);
  }

  lemma ClaimKeepsExact(c: Config, s: State, feeds: seq<int>)
    requires InflightExact(s) && Enabled(c, s, Claim(feeds))
    ensures InflightExact(Step(c, s, Claim(feeds)))
  {
    var t := Step(c, s, Claim(feeds));
    var n := |s.jobs|;
    assert forall j :: 0 <= j < n ==> t.jobs[j] == s.jobs[j];
    assert forall j :: n <= j < |t.jobs| ==> t.jobs[j] == Job(feeds[j - n], s.now, 0, 0, None);
    forall j | Active(s, j) ensures s.jobs[j].feed !in feeds {
    }
    forall f | f in Running(t.polls) ensures exists j :: Active(t, j) && t.jobs[j].feed == f {
      if f in feeds {
        var i :| 0 <= i < |feeds| && feeds[i] == f;
        assert Active(t, n + i) && t.jobs[n + i].feed == f;
      } else {
        assert f in Running(s.polls);
        var j :| Active(s, j) && s.jobs[j].feed == f;
        assert Active(t, j);
      }
    }
    forall i, j | Active(t, i) && Active(t, j) && t.jobs[i].feed == t.jobs[j].feed ensures i == j {
      assert i < n ==> Active(s, i);
      assert j < n ==> Active(s, j);
    }
    forall j | Active(t, j) ensures t.jobs[j].feed in t.polls && t.polls[t.jobs[j].feed] == Poll(t.jobs[j].claimedAt, None) {
      if j < n {
        assert Active(s, j);
      } else {
        assert t.jobs[j].feed in feeds;
      }
    }
  }

  lemma BeginKeepsExact(c: Config, s: State, w: nat)
    requires InflightExact(s) && Enabled(c, s, Begin(w))
    ensures InflightExact(Step(c, s, Begin(w)))
  {
    var t := Step(c, s, Begin(w));
    assert forall j :: Active(t, j) <==> Active(s, j);
    assert forall j :: 0 <= j < |s.jobs| ==> t.jobs[j].feed == s.jobs[j].feed && t.jobs[j].claimedAt == s.jobs[j].claimedAt;
  }

  lemma EndKeepsExact(c: Config, s: State, w: nat)
    requires Shape(c, s) && InflightExact(s) && Enabled(c, s, End(w))
    ensures InflightExact(Step(c, s, End(w)))
  {
    var t := Step(c, s, End(w));
    var e := s.busy[w].value;
    assert JobOf(s, w).worker == w;
    assert Active(s, e);
    forall j ensures Active(t, j) <==> Active(s, j) && j != e {
    }
    forall j | 0 <= j < |s.jobs| && j != e ensures t.jobs[j] == s.jobs[j] {
    }
    forall f | f in Running(t.polls) ensures exists j :: Active(t, j) && t.jobs[j].feed == f {
      assert f in Running(s.polls) && f != s.jobs[e].feed;
      var j :| Active(s, j) && s.jobs[j].feed == f;
      assert Active(t, j);
    }
  }

  lemma StepKeepsExact(c: Config, s: State, a: Action)
    requires Timing(c, s) && InflightExact(s) && 3 * c.timeout < c.staleAfter && Enabled(c, s, a)
    ensures InflightExact(Step(c, s, a))
  {
    match a
    case Tick(d) => assert forall j :: Active(Step(c, s, a), j) <==> Active(s, j);
    case Look => LookSeesAll(c, s);
    case Claim(feeds) => ClaimKeepsExact(c, s, feeds);
    case Begin(w) => BeginKeepsExact(c, s, w);
    case End(w) => EndKeepsExact(c, s, w);
  }

  /** No feed has two claims alive, nothing is ever stale, and every claim is over within three timeouts. */
  ghost predicate Safe(c: Config, s: State) {
    && (forall i, j :: Active(s, i) && Active(s, j) && s.jobs[i].feed == s.jobs[j].feed ==> i == j)
    && StaleOnes(s.polls, c.staleAfter, s.now) == {}
    && (forall j :: 0 <= j < |s.jobs| ==>
          (if s.jobs[j].endedAt.Some? then s.jobs[j].endedAt.value else s.now) <= s.jobs[j].claimedAt + 3 * c.timeout)
  }

  lemma ExactIsSafe(c: Config, s: State)
    requires Timing(c, s) && InflightExact(s) && 3 * c.timeout < c.staleAfter
    ensures Safe(c, s)
  {
    forall f | f in Running(s.polls) ensures !Stale(s.polls[f], c.staleAfter, s.now) {
      var j :| Active(s, j) && s.jobs[j].feed == f;
      ActiveIsYoung(c, s, j);
    }
    forall f ensures f !in StaleOnes(s.polls, c.staleAfter, s.now) {
      assert f in StaleOnes(s.polls, c.staleAfter, s.now) ==> f in Running(s.polls);
    }
    forall j | 0 <= j < |s.jobs|
      ensures (if s.jobs[j].endedAt.Some? then s.jobs[j].endedAt.value else s.now) <= s.jobs[j].claimedAt + 3 * c.timeout
    {
      if Active(s, j) {
        ActiveIsYoung(c, s, j);
      }
    }
  }

  lemma {:induction false} RunKeepsExact(c: Config, s: State, run: seq<Action>)
    requires Timing(c, s) && InflightExact(s) && c.workers > 0 && 3 * c.timeout < c.staleAfter && Runs(c, s, run)
    ensures Timing(c, After(c, s, run)) && InflightExact(After(c, s, run))
    decreases |run|
  {
    if run != [] {
      StepKeepsTiming(c, s, run[0]);
      StepKeepsExact(c, s, run[0]);
      RunKeepsExact(c, Step(c, s, run[0]), run[1..]);
    }
  }

  /** Every run of every pool is safe as long as the stale rule waits longer than three timeouts. */
  lemma NeverClaimedTwice(c: Config, run: seq<Action>)
    requires c.workers > 0 && 3 * c.timeout < c.staleAfter && Runs(c, Init(c), run)
    ensures Safe(c, After(c, Init(c), run))
  {
    RunKeepsExact(c, Init(c), run);
    ExactIsSafe(c, After(c, Init(c), run));
  }

  // ------------------------------------------------- when the rule is too short

  ghost predicate Reachable(c: Config, s: State) {
    exists run :: Runs(c, Init(c), run) && After(c, Init(c), run) == s
  }

  lemma {:induction false} RunsOn(c: Config, s: State, run: seq<Action>, a: Action)
    requires Runs(c, s, run) && Enabled(c, After(c, s, run), a)
    ensures Runs(c, s, run + [a]) && After(c, s, run + [a]) == Step(c, After(c, s, run), a)
    decreases |run|
  {
    if run == [] {
      assert (run + [a])[1..] == [];
    } else {
      assert (run + [a])[1..] == run[1..] + [a];
      RunsOn(c, Step(c, s, run[0]), run[1..], a);
    }
  }

  lemma InitReachable(c: Config)
    ensures Reachable(c, Init(c))
  {
    assert Runs(c, Init(c), []);
  }

  lemma Reach(c: Config, s: State, a: Action)
    requires Reachable(c, s) && Enabled(c, s, a)
    ensures Reachable(c, Step(c, s, a))
  {
    var run :| Runs(c, Init(c), run) && After(c, Init(c), run) == s;
    RunsOn(c, Init(c), run, a);
  }

  /** A look and the claim of one feed, when there is room and the feed is not in the way. */
  lemma ClaimOne(c: Config, s: State, feed: int)
    requires Reachable(c, s) && s.view.Blind? && |s.jobs| < s.begun + Capacity(c) && s.begun <= |s.jobs|
    requires feed !in Excluded(s.polls, c.staleAfter, c.grace, s.now)
    ensures Reachable(c, s.(jobs := s.jobs + [Job(feed, s.now, 0, 0, None)],
                            polls := Apply(s.polls, c.grace, Sweep(s.now))[feed := Poll(s.now, None)]))
  {
    var t := Step(c, s, Look);
    Reach(c, s, Look);
    var r := Step(c, t, Claim([feed]));
    Reach(c, t, Claim([feed]));
    assert NewJobs([feed], s.now) == [Job(feed, s.now, 0, 0, None)];
    assert r.polls == Apply(s.polls, c.grace, Sweep(s.now))[feed := Poll(s.now, None)];
  }

  /** One worker polls feed 1 while 2 and 3, claimed at the same moment, wait. */
  function Crowded(c: Config): State {
    State(0, [Job(1, 0, 0, 0, None), Job(2, 0, 0, 0, None), Job(3, 0, 0, 0, None)], 1, [Some(0)],
          map[1 := Poll(0, None), 2 := Poll(0, None), 3 := Poll(0, None)], Blind)
  }

  lemma CrowdedReachable(c: Config)
    requires c.workers == 1 && c.staleAfter > 0
    ensures Reachable(c, Crowded(c))
  {
    InitReachable(c);
    ClaimOne(c, Init(c), 1);
    var s := State(0, [Job(1, 0, 0, 0, None)], 0, [None], map[1 := Poll(0, None)], Blind);
    assert Init(c).busy == [None];
    assert Apply(map[], c.grace, Sweep(0)) == map[];
    assert Reachable(c, s);
    Reach(c, s, Begin(0));
    var t := State(0, [Job(1, 0, 0, 0, None)], 1, [Some(0)], map[1 := Poll(0, None)], Blind);
    assert Reachable(c, t);
    assert Apply(t.polls, c.grace, Sweep(0)) == t.polls;
    ClaimOne(c, t, 2);
    var u := t.(jobs := t.jobs + [Job(2, 0, 0, 0, None)], polls := t.polls[2 := Poll(0, None)]);
    assert Apply(u.polls, c.grace, Sweep(0)) == u.polls;
    ClaimOne(c, u, 3);
    assert u.jobs + [Job(3, 0, 0, 0, None)] == Crowded(c).jobs;
    assert u.polls[3 := Poll(0, None)] == Crowded(c).polls;
  }

  /** The running poll takes the whole timeout and the next one begins. */
  lemma WorkOff(c: Config, s: State)
    requires c.workers == 1 && Reachable(c, s) && s.view.Blind? && 0 < s.begun < |s.jobs| && s.busy == [Some(s.begun - 1)]
    requires s.jobs[s.begun - 1].beganAt == s.now
    ensures Reachable(c, WorkedOff(c, s))
  {
    Reach(c, s, Tick(c.timeout));
    var t := s.(now := s.now + c.timeout);
    Reach(c, t, End(0));
    Reach(c, Step(c, t, End(0)), Begin(0));
    assert s.busy[0 := None][0 := Some(s.begun)] == [Some(s.begun)];
  }

  ghost function WorkedOff(c: Config, s: State): State
    requires 0 < s.begun < |s.jobs|
  {
    var now := s.now + c.timeout;
    var ended := s.jobs[s.begun - 1].(endedAt := Some(now));
    State(now, s.jobs[s.begun - 1 := ended][s.begun := s.jobs[s.begun].(beganAt := now, worker := 0)], s.begun + 1,
          [Some(s.begun)], Apply(s.polls, c.grace, Done(ended.feed, now)), Blind)
  }

  /** One worker and three feeds claimed at once: the third is still being polled when the rule calls it stale. */
  lemma ClaimedTwice(c: Config)
    requires c.workers == 1 && 0 < c.staleAfter <= 3 * c.timeout
    ensures exists s :: Reachable(c, s) && !Safe(c, s)
  {
    CrowdedReachable(c);
    WorkOff(c, Crowded(c));
    var a := WorkedOff(c, Crowded(c));
    WorkOff(c, a);
    var b := WorkedOff(c, a);
    var d := Max(c.staleAfter - 2 * c.timeout, 0);
    assert b.now == 2 * c.timeout && b.jobs[2] == Job(3, 0, b.now, 0, None) && b.busy == [Some(2)];
    Reach(c, b, Tick(d));
    var e := b.(now := b.now + d);
    assert e.polls[3] == Poll(0, None) && Stale(e.polls[3], c.staleAfter, e.now);
    ClaimOne(c, e, 3);
    var f := e.(jobs := e.jobs + [Job(3, e.now, 0, 0, None)], polls := Apply(e.polls, c.grace, Sweep(e.now))[3 := Poll(e.now, None)]);
    assert Active(f, 2) && Active(f, 3) && f.jobs[2].feed == 3 && f.jobs[3].feed == 3;
  }

  /** The stale rule is safe for every pool size exactly when it waits longer than three timeouts. */
  lemma SafeIff(timeout: nat, staleAfter: int, grace: int)
    requires staleAfter > 0
    ensures 3 * timeout < staleAfter <==>
            forall workers: nat, s :: workers > 0 && Reachable(Config(workers, timeout, staleAfter, grace), s)
                                      ==> Safe(Config(workers, timeout, staleAfter, grace), s)
  {
    if 3 * timeout < staleAfter {
      forall workers: nat, s | workers > 0 && Reachable(Config(workers, timeout, staleAfter, grace), s)
        ensures Safe(Config(workers, timeout, staleAfter, grace), s)
      {
        var c := Config(workers, timeout, staleAfter, grace);
        var run :| Runs(c, Init(c), run) && After(c, Init(c), run) == s;
        NeverClaimedTwice(c, run);
      }
    } else {
      ClaimedTwice(Config(1, timeout, staleAfter, grace));
    }
  }

  const SECOND: nat := 1_000_000_000

  /** Runner.Run: the threshold derived from the fetch timeout. */
  function StaleAfter(fetchTimeout: nat): nat {
    Max(2 * fetchTimeout, 120 * SECOND)
  }

  /** With the derived threshold the fetch timeout must stay below 40 s; the 30 s in use do. */
  lemma FetchTimeoutBelow40(fetchTimeout: nat, grace: int)
    ensures fetchTimeout < 40 * SECOND <==>
            forall workers: nat, s :: workers > 0 && Reachable(Config(workers, fetchTimeout, StaleAfter(fetchTimeout), grace), s)
                                      ==> Safe(Config(workers, fetchTimeout, StaleAfter(fetchTimeout), grace), s)
  {
    SafeIff(fetchTimeout, StaleAfter(fetchTimeout), grace);
  }
}
