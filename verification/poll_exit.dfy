/**
  From one poll of a feed to the next: when a successful poll schedules it,
  and that every exit of a poll leaves the feed unclaimable for a while, so
  that the dispatcher cannot spin on it.

  Storage reads and writes succeed; started and finished are the two clock
  readings of a poll, and the refresher only knows the first.
 */
module PollExit {
  import opened Prelude
  import opened Schedule
  import Inflight
  import Win = PollWindow

  datatype Config = Config(minInterval: int, maxInterval: int, adaptiveMax: int, silentAfter: int, silentInterval: int, threshold: int)

  /** pollBounds. */
  function Lo(c: Config): int {
    if c.minInterval <= 0 then MINUTE else c.minInterval
  }

  function Hi(c: Config): int {
    if c.maxInterval <= 0 then 24 * HOUR else c.maxInterval
  }

  predicate ValidConfig(c: Config) {
    Lo(c) <= Hi(c) && Int64(Hi(c)) && Int64(c.adaptiveMax)
  }

  /** What a poll knows of its feed besides the schedule itself. */
  datatype Profile = Profile(id: int, kind: string, minutes: int, adaptive: bool, lastItem: int, weeklyItems: Option<nat>, window: Option<Win.Window>)

  predicate ValidProfile(p: Profile, now: int) {
    Int64(now - p.lastItem) && (p.window.Some? ==> Win.ValidWindow(p.window.value))
  }

  const INBOUND := "inbound"

  /** How far a poll gets before there is something to store. */
  datatype Attempt =
    | HostBusy
    | ProxyDown
    | LayoutChanged
    | AskedToWait(at: int, bridgeWide: bool)
    | FetchFailed(botChallenge: bool, gone: bool)
    | StoreFailed
    | Delivered(minNextCheck: Option<int>, newItems: bool)

  /** What RefreshLoadedFeed returns. */
  datatype PollError =
    | NoError
    | RetryAt(at: int, bridgeWide: bool, persisted: bool)
    | PollFailed
    | Refused

  const MEMORY_DEFER_MAX: int := MINUTE
  const MILLISECOND: int := 1_000_000

  // ------------------------------------------------------------- what is promised

  /** Half the average gap between a week's items, or the maximum doubled with every silent week after the first. */
  function AdaptiveMoment(c: Config, p: Profile, now: int): (at: Option<int>) {
    var base := BaseInterval(p.minutes, Lo(c), Hi(c));
    var ceiling := Min(c.adaptiveMax, Hi(c));
    if !p.adaptive || c.adaptiveMax <= 0 || p.weeklyItems.None? || ceiling <= base then None
    else if p.weeklyItems.value > 0 then Some(now + Max(base, Min(ceiling, WEEK / p.weeklyItems.value / 2)))
    else Some(now + Clamp(Doubled(ceiling, Weeks(now - p.lastItem), Hi(c)), base, Hi(c)))
  }

  /** Neither the interval nor the adaptive schedule nor the hint of the source, as far as the maximum, lies after t. */
  predicate NotBefore(c: Config, p: Profile, now: int, minNextCheck: Option<int>, t: int) {
    && now + BaseInterval(p.minutes, Lo(c), Hi(c)) <= t
    && (AdaptiveMoment(c, p, now).Some? ==> AdaptiveMoment(c, p, now).value <= t)
    && (minNextCheck.Some? ==> Min(minNextCheck.value, now + Hi(c)) <= t)
  }

  function PlainNext(c: Config, p: Profile, now: int, minNextCheck: Option<int>): int {
    var base := now + BaseInterval(p.minutes, Lo(c), Hi(c));
    var adaptive := AdaptiveMoment(c, p, now);
    Max(Max(base, if adaptive.Some? then adaptive.value else base),
        if minNextCheck.Some? then Min(minNextCheck.value, now + Hi(c)) else base)
  }

  /** The silent interval applies: nothing for long enough, and the feed's schedule is not later anyway. */
  predicate Dozes(c: Config, p: Profile, now: int, next: int) {
    && c.silentAfter > 0 && c.silentInterval > 0
    && now - p.lastItem >= c.silentAfter
    && now + Min(c.silentInterval, Hi(c)) > next
  }

  /** When a feed is due after a success: a silent one that brought nothing new waits longer. */
  function AfterSuccess(c: Config, p: Profile, now: int, minNextCheck: Option<int>, newItems: bool): int {
    var next := PlainNext(c, p, now, minNextCheck);
    if Dozes(c, p, now, next) && !newItems then now + Min(c.silentInterval, Hi(c)) else next
  }

  /** With polling hours the check moves to their next opening. */
  function DueAfterSuccess(c: Config, p: Profile, now: int, minNextCheck: Option<int>, newItems: bool): int {
    var at := AfterSuccess(c, p, now, minNextCheck, newItems);
    if p.window.Some? then Win.NextOpen(p.window.value, at) else at
  }

  /** The moment of a plain check is the earliest one possible. */
  lemma PlainNextIsLeast(c: Config, p: Profile, now: int, minNextCheck: Option<int>)
    requires ValidConfig(c) && ValidProfile(p, now)
    ensures var next := PlainNext(c, p, now, minNextCheck);
            && NotBefore(c, p, now, minNextCheck, next)
            && (forall t :: NotBefore(c, p, now, minNextCheck, t) ==> next <= t)
            && now + Lo(c) <= next <= now + Hi(c)
  {
    AdaptiveMomentIs(c, p, now);
  }

  /**
    When the adaptive schedule answers, and what: half the average gap between
    the items of a week, or the maximum doubled with every silent week after
    the first, up to the hard one.
   */
  lemma AdaptiveMomentIs(c: Config, p: Profile, now: int)
    requires ValidConfig(c) && ValidProfile(p, now)
    ensures var at := AdaptiveMoment(c, p, now);
            var base := BaseInterval(p.minutes, Lo(c), Hi(c));
            var ceiling := if c.adaptiveMax > Hi(c) then Hi(c) else c.adaptiveMax;
            && (at.Some? <==> p.adaptive && c.adaptiveMax > 0 && p.weeklyItems.Some? && ceiling > base)
            && (at.Some? ==> now + Lo(c) <= at.value <= now + Hi(c))
            && (at.Some? && p.weeklyItems.value > 0 ==>
                  at.value == now + Max(base, Min(ceiling, 7 * 24 * 3600 * SECOND / p.weeklyItems.value / 2)))
            && (at.Some? && p.weeklyItems.value == 0 && Hi(c) <= TWO_62 ==>
                  at.value == now + Min(Hi(c), ceiling * Pow2(Max(0, (now - p.lastItem) / (7 * 24 * 3600 * SECOND) - 1))))
  {
    var at := AdaptiveMoment(c, p, now);
    if at.Some? && p.weeklyItems.value == 0 && Hi(c) <= TWO_62 {
      var base, ceiling, silent := BaseInterval(p.minutes, Lo(c), Hi(c)), Min(c.adaptiveMax, Hi(c)), now - p.lastItem;
      StretchesBelow(base, ceiling, silent, Hi(c));
      ScaledIsProduct(ceiling, ExtraWeeks(silent));
      assert ExtraWeeks(silent) == Max(0, silent / WEEK - 1);
    }
  }

  /** What the silent interval changes, and that a success stays within the bounds. */
  lemma AfterSuccessIs(c: Config, p: Profile, now: int, minNextCheck: Option<int>, newItems: bool)
    requires ValidConfig(c) && ValidProfile(p, now)
    ensures var plain, at := PlainNext(c, p, now, minNextCheck), AfterSuccess(c, p, now, minNextCheck, newItems);
            && now + Lo(c) <= plain <= at <= now + Hi(c)
            && (at != plain <==> !newItems && c.silentAfter > 0 && c.silentInterval > 0
                                 && now - p.lastItem >= c.silentAfter && now + Min(c.silentInterval, Hi(c)) > plain)
            && (at != plain ==> at == now + Min(c.silentInterval, Hi(c)))
  {
    PlainNextIsLeast(c, p, now, minNextCheck);
  }

  /** A scheduled check is inside the bounds or, at most a day later, at the first open moment after them. */
  lemma ScheduleBounds(c: Config, p: Profile, now: int, minNextCheck: Option<int>, newItems: bool)
    requires ValidConfig(c) && ValidProfile(p, now)
    ensures var at, due := AfterSuccess(c, p, now, minNextCheck, newItems), DueAfterSuccess(c, p, now, minNextCheck, newItems);
            && now + Lo(c) <= at <= due && at <= now + Hi(c)
            && (p.window.None? ==> due == at)
            && (p.window.Some? ==>
                  && due < at + Win.DAY && Win.Contains(p.window.value, due)
                  && forall t :: at <= t < due ==> !Win.Contains(p.window.value, t))
  {
    AfterSuccessIs(c, p, now, minNextCheck, newItems);
    if p.window.Some? {
      Win.NextOpenIsLeast(p.window.value, AfterSuccess(c, p, now, minNextCheck, newItems));
    }
  }

  /** What RefreshLoadedFeed answers: a closed window comes before anything is asked. */
  function Verdict(c: Config, p: Profile, started: int, attempt: Attempt): PollError {
    if p.kind == INBOUND then Refused
    else if p.window.Some? && !Win.Contains(p.window.value, started) then RetryAt(Win.NextOpen(p.window.value, started), false, false)
    else
      match attempt
      case HostBusy => RetryAt(started + (60 + p.id % 31) * SECOND, false, false)
      case ProxyDown => RetryAt(PlainNext(c, p, started, None), false, false)
      case LayoutChanged => RetryAt(PlainNext(c, p, started, None), false, true)
      case AskedToWait(at, wide) => RetryAt(at, wide, false)
      case FetchFailed(_, _) => PollFailed
      case StoreFailed => PollFailed
      case Delivered(_, _) => NoError
  }

  /** A failure counts and backs off; a bot challenge waits the longest, and a page that is gone is paused. */
  predicate FailureOf(c: Config, p: Profile, started: int, attempt: Attempt, was: nat, errors: nat, next: Option<int>, paused: bool, manual: bool) {
    && (attempt.FetchFailed? || attempt.StoreFailed?) && errors == was + 1
    && next == Some(started + if attempt.FetchFailed? && attempt.botChallenge then Hi(c) else FeedErrorPollDelay(p.minutes, errors, Lo(c), Hi(c)))
    && (paused <==> errors >= if c.threshold <= 0 then 10 else c.threshold)
    && (manual <==> attempt.FetchFailed? && attempt.gone)
  }

  /**
    With nothing configured a feed of 15 minutes is due a quarter of an hour
    later, one of no minutes after a minute, and a source that asks for more
    than a day gets a day.
   */
  lemma Defaults(p: Profile, now: int, hint: int)
    requires !p.adaptive && p.window.None? && Int64(now - p.lastItem) && hint > now + 86_400_000_000_000
    ensures var c := Config(0, 0, 0, 0, 0, 0);
            && (p.minutes == 15 ==> DueAfterSuccess(c, p, now, None, false) == now + 900_000_000_000)
            && (p.minutes == 0 ==> DueAfterSuccess(c, p, now, None, false) == now + 60_000_000_000)
            && DueAfterSuccess(c, p, now, Some(hint), false) == now + 86_400_000_000_000
  {
  }

  class Feed {
    const profile: Profile
    var nextCheckAt: Option<int>
    var errors: nat
    var pollPaused: bool
    var manualPaused: bool
    var deferredFeeds: map<int, int>
    var deferredBridges: map<string, int>

    constructor (p: Profile)
      ensures profile == p && nextCheckAt == None && errors == 0 && !pollPaused && !manualPaused
      ensures deferredFeeds == map[] && deferredBridges == map[]
    {
      profile := p;
      nextCheckAt, errors, pollPaused, manualPaused := None, 0, false, false;
      deferredFeeds, deferredBridges := map[], map[];
    }

    /** ListFeedsDue would return the feed at t. */
    predicate Claimable(t: int)
      reads this
    {
      && !pollPaused && !manualPaused && profile.kind != INBOUND
      && (nextCheckAt.None? || nextCheckAt.value <= t)
      && profile.id !in Inflight.Live(deferredFeeds, t) && profile.kind !in Inflight.Live(deferredBridges, t)
    }

    lemma ClaimableIs(t: int)
      ensures Claimable(t) <==>
              && !pollPaused && !manualPaused && profile.kind != "inbound"
              && (nextCheckAt.Some? ==> nextCheckAt.value <= t)
              && (profile.id in deferredFeeds ==> deferredFeeds[profile.id] <= t)
              && (profile.kind in deferredBridges ==> deferredBridges[profile.kind] <= t)
    {
    }

    // ---------------------------------------------------------------- schedule

    /** adaptiveNextCheck: None is the zero time. */
    method AdaptiveNextCheck(c: Config, now: int) returns (at: Option<int>)
      requires ValidConfig(c) && ValidProfile(profile, now)
      ensures at == AdaptiveMoment(c, profile, now)
      ensures at.Some? <==> profile.adaptive && c.adaptiveMax > 0 && profile.weeklyItems.Some?
                            && Min(c.adaptiveMax, Hi(c)) > BaseInterval(profile.minutes, Lo(c), Hi(c))
      ensures at.Some? ==> now + Lo(c) <= at.value <= now + Hi(c)
    {
      AdaptiveMomentIs(c, profile, now);
      if !profile.adaptive || c.adaptiveMax <= 0 {
        return None;
      }
      var ceiling := if c.adaptiveMax > Hi(c) then Hi(c) else c.adaptiveMax;
      var base := BaseInterval(profile.minutes, Lo(c), Hi(c));
      if ceiling <= base || profile.weeklyItems.None? {
        return None;
      }
      var silentFor := if profile.weeklyItems.value == 0 then now - profile.lastItem else 0;
      var d := AdaptivePollInterval(base, profile.weeklyItems.value, silentFor, ceiling, Hi(c));
      at := Some(now + d);
    }

    /** nextCheckAfterPoll: the earliest moment, so hints only postpone, and nothing leaves the configured bounds. */
    method NextCheckAfterPoll(c: Config, now: int, minNextCheck: Option<int>) returns (next: int)
      requires ValidConfig(c) && ValidProfile(profile, now)
      ensures next == PlainNext(c, profile, now, minNextCheck)
      ensures NotBefore(c, profile, now, minNextCheck, next)
      ensures forall t :: NotBefore(c, profile, now, minNextCheck, t) ==> next <= t
      ensures now + Lo(c) <= next <= now + Hi(c)
    {
      PlainNextIsLeast(c, profile, now, minNextCheck);
      next := now + BaseInterval(profile.minutes, Lo(c), Hi(c));
      var adaptive := AdaptiveNextCheck(c, now);
      if adaptive.Some? && adaptive.value > next {
        next := adaptive.value;
      }
      if minNextCheck.Some? && minNextCheck.value > next {
        next := minNextCheck.value;
        var limit := now + Hi(c);
        if next > limit {
          next := limit;
        }
      }
    }

    /** silentNextCheck. */
    method SilentNextCheck(c: Config, now: int, next: int) returns (at: int, silent: bool)
      requires ValidConfig(c) && now + Lo(c) <= next <= now + Hi(c)
      ensures silent <==> c.silentAfter > 0 && c.silentInterval > 0 && now - profile.lastItem >= c.silentAfter
                          && now + Min(c.silentInterval, Hi(c)) > next
      ensures at == if silent then now + Min(c.silentInterval, Hi(c)) else next
    {
      if c.silentAfter <= 0 || c.silentInterval <= 0 || now - profile.lastItem < c.silentAfter {
        return next, false;
      }
      var d := if Hi(c) > 0 && c.silentInterval > Hi(c) then Hi(c) else c.silentInterval;
      if now + d > next {
        return now + d, true;
      }
      at, silent := next, false;
    }

    // -------------------------------------------------------------- refreshLoaded

    /** The part of refreshLoaded after the items are in: the schedule of a success. */
    method Succeed(c: Config, now: int, minNextCheck: Option<int>, newItems: bool)
      requires ValidConfig(c) && ValidProfile(profile, now)
      modifies this
      ensures nextCheckAt == Some(DueAfterSuccess(c, profile, now, minNextCheck, newItems))
      ensures errors == 0 && !pollPaused && manualPaused == old(manualPaused)
      ensures deferredFeeds == old(deferredFeeds) && deferredBridges == old(deferredBridges)
    {
      var plain := NextCheckAfterPoll(c, now, minNextCheck);
      var silentNext, silent := SilentNextCheck(c, now, plain);
      if silent {
        plain := silentNext;
      }
      if profile.window.Some? {
        plain := Win.NextOpen(profile.window.value, plain);
      }
      if silent && newItems {
        plain := NextCheckAfterPoll(c, now, minNextCheck);
        if profile.window.Some? {
          plain := Win.NextOpen(profile.window.value, plain);
        }
      }
      nextCheckAt, errors, pollPaused := Some(plain), 0, false;
    }

    /** recordFailure with RecordFeedPollFailure; a page that is gone is paused as an admin would. */
    method Fail(c: Config, now: int, botChallenge: bool, gone: bool)
      requires ValidConfig(c)
      modifies this
      ensures nextCheckAt == Some(now + if botChallenge then Hi(c) else FeedErrorPollDelay(profile.minutes, errors, Lo(c), Hi(c)))
      ensures now + Lo(c) <= nextCheckAt.value <= now + Hi(c)
      ensures errors == old(errors) + 1 && (pollPaused <==> errors >= if c.threshold <= 0 then 10 else c.threshold)
      ensures manualPaused == (old(manualPaused) || gone)
      ensures deferredFeeds == old(deferredFeeds) && deferredBridges == old(deferredBridges)
    {
      errors := errors + 1;
      pollPaused := errors >= Threshold(c.threshold);
      var delay := FeedErrorPollDelay(profile.minutes, errors, Lo(c), Hi(c));
      nextCheckAt := Some(now + if botChallenge then Hi(c) else delay);
      if gone {
        manualPaused := true;
      }
    }

    method RefreshLoaded(c: Config, started: int, attempt: Attempt) returns (err: PollError)
      requires ValidConfig(c) && ValidProfile(profile, started) && !pollPaused && !manualPaused
      modifies this
      ensures deferredFeeds == old(deferredFeeds) && deferredBridges == old(deferredBridges)
      ensures err == Verdict(c, profile, started, attempt)
      ensures err.NoError? ==>
                attempt.Delivered? && errors == 0 && !pollPaused && !manualPaused
                && nextCheckAt == Some(DueAfterSuccess(c, profile, started, attempt.minNextCheck, attempt.newItems))
      ensures err.PollFailed? ==> FailureOf(c, profile, started, attempt, old(errors), errors, nextCheckAt, pollPaused, manualPaused)
      ensures err.RetryAt? || err.Refused? ==> errors == old(errors) && !pollPaused && !manualPaused
      ensures err.RetryAt? && err.persisted ==> nextCheckAt == Some(err.at)
      ensures (err.RetryAt? && !err.persisted) || err.Refused? ==> nextCheckAt == old(nextCheckAt)
      ensures err.NoError? || err.PollFailed? || (err.RetryAt? && err.persisted) ==> nextCheckAt.Some? && nextCheckAt.value >= started + Lo(c)
    {
      if profile.kind == INBOUND {
        return Refused;
      }
      if profile.window.Some? && !Win.Contains(profile.window.value, started) {
        return RetryAt(Win.NextOpen(profile.window.value, started), false, false);
      }
      match attempt
      case HostBusy =>
        err := RetryAt(started + MINUTE + profile.id % 31 * SECOND, false, false);
      case ProxyDown =>
        var at := NextCheckAfterPoll(c, started, None);
        err := RetryAt(at, false, false);
      case LayoutChanged =>
        var next := NextCheckAfterPoll(c, started, None);
        nextCheckAt := Some(next);
        err := RetryAt(next, false, true);
      case AskedToWait(at, wide) =>
        err := RetryAt(at, wide, false);
      case FetchFailed(bot, gone) =>
        Fail(c, started, bot, gone);
        err := PollFailed;
      case StoreFailed =>
        Fail(c, started, false, false);
        err := PollFailed;
      case Delivered(minNextCheck, newItems) =>
        ScheduleBounds(c, profile, started, minNextCheck, newItems);
        Succeed(c, started, minNextCheck, newItems);
        err := NoError;
    }

    // ------------------------------------------------------------ processPollFeed

    /**
      workerLoop around processPollFeed. Whatever happens, a poll that took
      less than the minimum interval leaves the feed out of the due query until
      some later moment, and no longer: a success until its schedule, a failure
      until its backoff ends, a deferral until the moment it asks for, held in
      memory when that is near or concerns the bridge.
     */
    method ProcessPollFeed(c: Config, started: int, finished: int, attempt: Attempt) returns (err: PollError, ghost until: int)
      requires ValidConfig(c) && ValidProfile(profile, started)
      requires started <= finished < started + Lo(c)
      modifies this
      ensures until > finished && forall t :: finished <= t < until ==> !Claimable(t)
      ensures old(Claimable(started)) && !pollPaused && !manualPaused ==> Claimable(until)
      ensures old(pollPaused || manualPaused) ==>
                err.NoError? && nextCheckAt == old(nextCheckAt) && errors == old(errors)
                && pollPaused == old(pollPaused) && manualPaused == old(manualPaused)
      ensures !old(pollPaused || manualPaused) ==> err == Verdict(c, profile, started, attempt)
      ensures !old(pollPaused || manualPaused) && err.NoError? ==>
                attempt.Delivered? && errors == 0 && !pollPaused && !manualPaused
                && until == DueAfterSuccess(c, profile, started, attempt.minNextCheck, attempt.newItems) && nextCheckAt == Some(until)
      ensures err.PollFailed? ==>
                FailureOf(c, profile, started, attempt, old(errors), errors, nextCheckAt, pollPaused, manualPaused) && nextCheckAt == Some(until)
      ensures err.RetryAt? ==>
                && errors == old(errors) && !pollPaused && !manualPaused
                && until == (if !err.persisted && err.at < finished + 50_000_000 then finished + SECOND else err.at)
                && (if err.persisted || (!err.bridgeWide && until - finished > 60 * SECOND) then nextCheckAt == Some(until) else nextCheckAt == old(nextCheckAt))
      ensures deferredFeeds ==
                if err.RetryAt? && !err.persisted && !err.bridgeWide && until - finished <= 60 * SECOND
                then Later(old(deferredFeeds), profile.id, until) else old(deferredFeeds)
      ensures deferredBridges ==
                if err.RetryAt? && !err.persisted && err.bridgeWide then Later(old(deferredBridges), profile.kind, until) else old(deferredBridges)
    {
      until := finished + 1;
      if pollPaused || manualPaused {
        return NoError, until;
      }
      err := RefreshLoaded(c, started, attempt);
      if err.RetryAt? {
        var at := err.at;
        if at < finished + 50 * MILLISECOND {
          at := finished + SECOND;
        }
        if err.persisted {
          until := err.at;
          return;
        }
        until := at;
        if err.bridgeWide {
          deferredBridges := Inflight.ApplyPause(deferredBridges, Inflight.Pause(profile.kind, at));
          return;
        }
        if at - finished <= MEMORY_DEFER_MAX {
          deferredFeeds := Inflight.ApplyPause(deferredFeeds, Inflight.Pause(profile.id, at));
          return;
        }
        nextCheckAt := Some(at);
        return;
      }
      if !err.NoError? {
        if !(nextCheckAt.Some? && nextCheckAt.value > finished) {
          nextCheckAt := Some(finished + FeedErrorPollDelay(profile.minutes, errors, c.minInterval, c.maxInterval));
        }
      }
      if !err.Refused? {
        until := nextCheckAt.value;
      }
    }
  }

  /** A pause never ends earlier than one that was there. */
  function Later<K>(pauses: map<K, int>, id: K, t: int): map<K, int> {
    pauses[id := if id in pauses && pauses[id] > t then pauses[id] else t]
  }
}
