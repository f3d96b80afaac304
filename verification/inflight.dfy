/**
  The two in-memory sets of the dispatchers: what is being polled or
  delivered, and what waits out a rate limit. Both are swept lazily by their
  readers; the sweeps are shown to be invisible.
 */
module Inflight {
  import opened Prelude

  /** doneAt is the zero time while the item is running. */
  datatype Poll = Poll(startedAt: int, doneAt: Option<int>)

  predicate PastGrace(e: Poll, grace: int, now: int) {
    e.doneAt.Some? && now - e.doneAt.value >= grace
  }

  /** A poll that ignored its timeout; staleAfter 0 means never. */
  predicate Stale(e: Poll, staleAfter: int, now: int) {
    e.doneAt.None? && staleAfter > 0 && now - e.startedAt >= staleAfter
  }

  /** The ids the dispatcher must not claim at `now`. */
  function Excluded(polls: map<int, Poll>, staleAfter: int, grace: int, now: int): set<int> {
    set id | id in polls && !PastGrace(polls[id], grace, now) && !Stale(polls[id], staleAfter, now)
  }

  function Running(polls: map<int, Poll>): set<int> {
    set id | id in polls && polls[id].doneAt.None?
  }

  function StaleOnes(polls: map<int, Poll>, staleAfter: int, now: int): set<int> {
    set id | id in polls && Stale(polls[id], staleAfter, now)
  }

  // --------------------------------------------------------------- transitions

  datatype Event = Start(id: int, at: int) | Done(id: int, at: int) | Forget(id: int) | Sweep(now: int)

  function Apply(polls: map<int, Poll>, grace: int, ev: Event): map<int, Poll> {
    match ev
    case Start(id, at) => polls[id := Poll(at, None)]
    case Done(id, at) => if id in polls && polls[id].doneAt.None? then polls[id := polls[id].(doneAt := Some(at))] else polls
    case Forget(id) => polls - {id}
    case Sweep(now) => map id | id in polls && !PastGrace(polls[id], grace, now) :: polls[id]
  }

  function Replay(polls: map<int, Poll>, grace: int, evs: seq<Event>): map<int, Poll>
    decreases |evs|
  {
    if evs == [] then polls else Replay(Apply(polls, grace, evs[0]), grace, evs[1..])
  }

  /** The same run with nothing ever swept. */
  function WithoutSweeps(evs: seq<Event>): seq<Event>
    decreases |evs|
  {
    if evs == [] then [] else (if evs[0].Sweep? then [] else [evs[0]]) + WithoutSweeps(evs[1..])
  }

  /** `swept` misses only items of `full` whose grace is over at t. */
  ghost predicate SameFrom(swept: map<int, Poll>, full: map<int, Poll>, grace: int, t: int) {
    && (forall id :: id in swept ==> id in full && full[id] == swept[id])
    && (forall id :: id in full && id !in swept ==> PastGrace(full[id], grace, t))
  }

  lemma {:induction false} SweepsLeaveSame(swept: map<int, Poll>, full: map<int, Poll>, grace: int, evs: seq<Event>, t: int)
    requires SameFrom(swept, full, grace, t)
    requires forall i :: 0 <= i < |evs| && evs[i].Sweep? ==> evs[i].now <= t
    ensures SameFrom(Replay(swept, grace, evs), Replay(full, grace, WithoutSweeps(evs)), grace, t)
    decreases |evs|
  {
    if evs != [] {
      var ev := evs[0];
      var rest := WithoutSweeps(evs[1..]);
      if ev.Sweep? {
        assert WithoutSweeps(evs) == rest;
        SweepsLeaveSame(Apply(swept, grace, ev), full, grace, evs[1..], t);
      } else {
        assert WithoutSweeps(evs)[0] == ev && WithoutSweeps(evs)[1..] == rest;
        SweepsLeaveSame(Apply(swept, grace, ev), Apply(full, grace, ev), grace, evs[1..], t);
      }
    }
  }

  /** What the readers see at t does not depend on the sweeps before t. */
  lemma SweepsAreInvisible(polls: map<int, Poll>, staleAfter: int, grace: int, evs: seq<Event>, t: int)
    requires forall i :: 0 <= i < |evs| && evs[i].Sweep? ==> evs[i].now <= t
    ensures var a := Replay(polls, grace, evs);
            var b := Replay(polls, grace, WithoutSweeps(evs));
            && Excluded(a, staleAfter, grace, t) == Excluded(b, staleAfter, grace, t)
            && Running(a) == Running(b) && StaleOnes(a, staleAfter, t) == StaleOnes(b, staleAfter, t)
  {
    SweepsLeaveSame(polls, polls, grace, evs, t);
    var a := Replay(polls, grace, evs);
    var b := Replay(polls, grace, WithoutSweeps(evs));
    forall id
      ensures id in Excluded(a, staleAfter, grace, t) <==> id in Excluded(b, staleAfter, grace, t)
      ensures id in Running(a) <==> id in Running(b)
      ensures id in StaleOnes(a, staleAfter, t) <==> id in StaleOnes(b, staleAfter, t)
    {
      assert id in a || id in b ==> id in b;
    }
  }

  class InflightPolls {
    var polls: map<int, Poll>
    const staleAfter: int
    const finishedGrace: int

    constructor (staleAfter: int, finishedGrace: int)
      ensures this.staleAfter == staleAfter && this.finishedGrace == finishedGrace && polls == map[]
    {
      this.staleAfter, this.finishedGrace := staleAfter, finishedGrace;
      polls := map[];
    }

    method Start(id: int, at: int)
      modifies this
      ensures polls == Apply(old(polls), finishedGrace, Event.Start(id, at)) == old(polls)[id := Poll(at, None)]
    {
      polls := polls[id := Poll(at, None)];
    }

    method Done(id: int, at: int)
      modifies this
      ensures polls == Apply(old(polls), finishedGrace, Event.Done(id, at))
      ensures polls == if id in old(polls) && old(polls)[id].doneAt == None then old(polls)[id := Poll(old(polls)[id].startedAt, Some(at))] else old(polls)
    {
      if id in polls {
        var e := polls[id];
        if e.doneAt.None? {
          polls := polls[id := e.(doneAt := Some(at))];
        }
      }
    }

    method Forget(id: int)
      modifies this
      ensures polls == Apply(old(polls), finishedGrace, Event.Forget(id)) == old(polls) - {id}
    {
      polls := polls - {id};
    }

    /**
      The range over the map, in any order, with deletes in its body: a
      finished item is excluded during its grace and then forgotten, a running
      one until it is stale.
     */
    method Exclude(now: int) returns (out: set<int>)
      modifies this
      ensures polls == Apply(old(polls), finishedGrace, Sweep(now))
      ensures out == Excluded(old(polls), staleAfter, finishedGrace, now)
      ensures forall id :: id in out <==>
                id in old(polls)
                && match old(polls)[id].doneAt
                   case Some(done) => now - done < finishedGrace
                   case None => staleAfter <= 0 || now - old(polls)[id].startedAt < staleAfter
      ensures forall id :: id in polls <==> id in old(polls) && (old(polls)[id].doneAt.Some? ==> now - old(polls)[id].doneAt.value < finishedGrace)
      ensures forall id :: id in polls ==> polls[id] == old(polls)[id]
    {
      out := {};
      var rest := polls.Keys;
      while rest != {}
        invariant rest <= polls.Keys
        invariant polls == map id | id in old(polls) && (id in rest || !PastGrace(old(polls)[id], finishedGrace, now)) :: old(polls)[id]
        invariant out == Excluded(old(polls), staleAfter, finishedGrace, now) - rest
        decreases |rest|
      {
        ghost var some := Pick(rest);
        var id :| id in rest;
        rest := rest - {id};
        var e := polls[id];
        if e.doneAt.Some? && now - e.doneAt.value >= finishedGrace {
          polls := polls - {id};
        } else if e.doneAt.Some? || !(staleAfter > 0 && now - e.startedAt >= staleAfter) {
          out := out + {id};
        }
      }
    }

    method Counts(now: int) returns (running: nat, stale: nat)
      ensures running == |Running(polls)| && stale == |StaleOnes(polls, staleAfter, now)|
    {
      running, stale := 0, 0;
      var rest := polls.Keys;
      assert Running(polls) - rest == {} && StaleOnes(polls, staleAfter, now) - rest == {};
      while rest != {}
        invariant rest <= polls.Keys
        invariant running == |Running(polls) - rest| && stale == |StaleOnes(polls, staleAfter, now) - rest|
        decreases |rest|
      {
        ghost var some := Pick(rest);
        var id :| id in rest;
        OneLess(Running(polls), rest, id);
        OneLess(StaleOnes(polls, staleAfter, now), rest, id);
        rest := rest - {id};
        var e := polls[id];
        if e.doneAt.None? {
          running := running + 1;
          if staleAfter > 0 && now - e.startedAt >= staleAfter {
            stale := stale + 1;
          }
        }
      }
      assert Running(polls) - {} == Running(polls) && StaleOnes(polls, staleAfter, now) - {} == StaleOnes(polls, staleAfter, now);
    }

    method Since(id: int) returns (at: Option<int>)
      ensures at == if id in Running(polls) then Some(polls[id].startedAt) else None
    {
      if id !in polls || polls[id].doneAt.Some? {
        return None;
      }
      at := Some(polls[id].startedAt);
    }
  }

  /** What is counted as running, and as stale. */
  lemma CountsAre(polls: map<int, Poll>, staleAfter: int, now: int)
    ensures Running(polls) == (set id | id in polls && polls[id].doneAt == None)
    ensures StaleOnes(polls, staleAfter, now) ==
            (set id | id in polls && polls[id].doneAt == None && staleAfter > 0 && now - polls[id].startedAt >= staleAfter)
  {
    forall id ensures id in StaleOnes(polls, staleAfter, now) <==>
                      id in polls && polls[id].doneAt == None && staleAfter > 0 && now - polls[id].startedAt >= staleAfter
    {
    }
  }

  lemma OneLess(s: set<int>, rest: set<int>, x: int)
    requires x in rest
    ensures |s - (rest - {x})| == |s - rest| + (if x in s then 1 else 0)
  {
    assert s - (rest - {x}) == (s - rest) + (if x in s then {x} else {});
  }

  // --------------------------------------------------------------------- pauses

  datatype PauseEvent<K> = Pause(id: K, until: int) | Expire(now: int)

  function ApplyPause<K>(until: map<K, int>, ev: PauseEvent<K>): map<K, int> {
    match ev
    case Pause(id, u) => if id !in until || u > until[id] then until[id := u] else until
    case Expire(now) => map id | id in until && until[id] > now :: until[id]
  }

  function ReplayPauses<K>(until: map<K, int>, evs: seq<PauseEvent<K>>): map<K, int>
    decreases |evs|
  {
    if evs == [] then until else ReplayPauses(ApplyPause(until, evs[0]), evs[1..])
  }

  /** What is still paused at t, and until when. */
  function Live<K>(until: map<K, int>, t: int): map<K, int> {
    map id | id in until && until[id] > t :: until[id]
  }

  /** The latest moment any pause of id asks for. */
  ghost predicate LatestAsked<K>(evs: seq<PauseEvent<K>>, id: K, u: int) {
    Pause(id, u) in evs && forall v :: Pause(id, v) in evs ==> v <= u
  }

  lemma {:induction false} ReplayNext<K>(until: map<K, int>, evs: seq<PauseEvent<K>>, last: PauseEvent<K>)
    ensures ReplayPauses(until, evs + [last]) == ApplyPause(ReplayPauses(until, evs), last)
    decreases |evs|
  {
    if evs != [] {
      assert (evs + [last])[1..] == evs[1..] + [last];
      ReplayNext(ApplyPause(until, evs[0]), evs[1..], last);
    } else {
      assert (evs + [last])[1..] == [];
    }
  }

  /**
    However pauses and sweeps were mixed, at t an id is paused exactly when
    one of its pauses lasts beyond t, and then until the latest of them.
   */
  lemma {:induction false} LiveIsLatest<K>(evs: seq<PauseEvent<K>>, t: int, id: K)
    requires forall i :: 0 <= i < |evs| && evs[i].Expire? ==> evs[i].now <= t
    ensures var live := Live(ReplayPauses(map[], evs), t);
            && (id in live ==> live[id] > t && LatestAsked(evs, id, live[id]))
            && (id !in live ==> forall u :: Pause(id, u) in evs ==> u <= t)
    decreases |evs|
  {
    if evs != [] {
      var init, last := evs[..|evs| - 1], evs[|evs| - 1];
      assert evs == init + [last];
      LiveIsLatest(init, t, id);
      ReplayNext(map[], init, last);
      assert forall u :: Pause(id, u) in evs <==> Pause(id, u) in init || last == Pause(id, u);
      var p := ReplayPauses(map[], init);
      if last.Expire? {
        assert Live(ApplyPause(p, last), t) == Live(p, t);
      }
    }
  }

  ghost predicate Earliest<K>(until: map<K, int>, ids: set<K>, resume: int) {
    (exists id :: id in ids && id in until && until[id] == resume) && forall id :: id in ids && id in until ==> resume <= until[id]
  }

  lemma Earlier<K>(until: map<K, int>, ids: set<K>, resume: int, any: bool, id: K)
    requires id in until && if any then Earliest(until, ids, resume) else ids == {}
    ensures Earliest(until, ids + {id}, if any then Min(resume, until[id]) else until[id])
  {
  }

  /** The map while `rest` is still to be looked at. */
  ghost function KeptOf<K>(until: map<K, int>, rest: set<K>, now: int): map<K, int> {
    map id | id in until && (id in rest || until[id] > now) :: until[id]
  }

  lemma KeptLess<K>(until: map<K, int>, rest: set<K>, now: int, id: K)
    requires id in rest && id in KeptOf(until, rest, now)
    ensures KeptOf(until, rest - {id}, now) == if until[id] <= now then KeptOf(until, rest, now) - {id} else KeptOf(until, rest, now)
    ensures Live(until, now).Keys - (rest - {id}) == if until[id] <= now then Live(until, now).Keys - rest else Live(until, now).Keys - rest + {id}
  {
  }

  class DuePauses<K(==)> {
    var until: map<K, int>

    constructor ()
      ensures until == map[]
    {
      until := map[];
    }

    method Pause(id: K, u: int)
      modifies this
      ensures until == ApplyPause(old(until), PauseEvent.Pause(id, u))
      ensures until == old(until)[id := if id in old(until) && old(until)[id] > u then old(until)[id] else u]
    {
      if id !in until || u > until[id] {
        until := until[id := u];
      }
    }

    /** The ids still paused, the earliest moment one of them resumes, and whether there is any. */
    method Active(now: int) returns (ids: set<K>, resume: int, any: bool)
      modifies this
      ensures until == ApplyPause(old(until), Expire(now))
      ensures ids == Live(old(until), now).Keys
      ensures forall id :: id in ids <==> id in old(until) && old(until)[id] > now
      ensures until.Keys == ids && forall id :: id in ids ==> until[id] == old(until)[id]
      ensures if any then Earliest(old(until), ids, resume) else ids == {}
    {
      ids, resume, any := {}, 0, false;
      var rest := until.Keys;
      assert until == KeptOf(until, rest, now);
      while rest != {}
        invariant rest <= until.Keys && until == KeptOf(old(until), rest, now)
        invariant ids == Live(old(until), now).Keys - rest
        invariant if any then Earliest(old(until), ids, resume) else ids == {}
        decreases |rest|
      {
        ghost var some := Pick(rest);
        var id :| id in rest;
        KeptLess(old(until), rest, now, id);
        rest := rest - {id};
        var u := until[id];
        if u <= now {
          until := until - {id};
        } else {
          Earlier(old(until), ids, resume, any, id);
          ids := ids + {id};
          if !any || u < resume {
            resume, any := u, true;
          }
        }
      }
    }

    method PausedUntil(id: K, now: int) returns (u: Option<int>)
      ensures u == if id in until && until[id] > now then Some(until[id]) else None
    {
      if id !in until || until[id] <= now {
        return None;
      }
      u := Some(until[id]);
    }
  }
}
