/**
  FeedRefresher: the loops and transactions that store a poll, and what a poll
  leaves in the tables, column by column.
 */
module FeedRefresh {
  import opened Prelude
  import opened Text
  import opened Catalog
  import opened CatalogInvariant
  import opened CatalogRuns
  import opened Fingerprint
  import opened Polls
  import opened PollColumns
  import Store

  method NonBlankHashes(items: seq<Item>) returns (hashes: seq<string>)
    ensures forall h :: h in hashes <==> !Blank(h) && h in Store.HashSet(items)
  {
    hashes := [];
    var i := 0;
    while i < |items|
      invariant i <= |items|
      invariant forall h :: h in hashes <==> !Blank(h) && h in Store.HashSet(items[..i])
    {
      Store.HashSetNext(items[..i], items[i]);
      assert items[..i + 1] == items[..i] + [items[i]];
      if !Blank(items[i].hash) {
        hashes := hashes + [items[i].hash];
      }
      i := i + 1;
    }
    assert items[..i] == items;
  }

  /** The loop that grows freshParams and marks each hash as known on the way. */
  method CollectFresh(items: seq<Item>, known: set<string>) returns (unseen: seq<Item>)
    ensures unseen == Fresh(NonEmpty(items), known)
  {
    unseen := [];
    var seen := known;
    var i := 0;
    while i < |items|
      invariant i <= |items| && unseen == Fresh(NonEmpty(items[..i]), known) && seen == known + Store.HashSet(unseen)
    {
      var p := items[i];
      assert items[..i + 1][..i] == items[..i];
      if p.hash != "" {
        Store.FreshNext(NonEmpty(items[..i]), p, known);
        if p.hash !in seen {
          Store.HashSetNext(unseen, p);
          seen := seen + {p.hash};
          unseen := unseen + [p];
        } else {
          assert unseen + [] == unseen;
        }
      } else {
        assert NonEmpty(items[..i]) + [] == NonEmpty(items[..i]);
      }
      i := i + 1;
    }
    assert items[..i] == items;
  }

  /** The matching loop: the first subscriber whose filter matches decides. */
  method Divide(items: seq<Item>, subscribers: seq<set<Item>>) returns (wanted: seq<Item>, toDedup: seq<string>)
    ensures wanted == Select(items, subscribers, true)
    ensures Elements(toDedup) == Store.HashSet(Select(items, subscribers, false))
  {
    wanted, toDedup := [], [];
    var i := 0;
    while i < |items|
      invariant i <= |items| && wanted == Select(items[..i], subscribers, true)
      invariant Elements(toDedup) == Store.HashSet(Select(items[..i], subscribers, false))
    {
      var hit := false;
      var j := 0;
      while j < |subscribers| && !hit
        invariant j <= |subscribers|
        invariant hit ==> WantedBy(subscribers, items[i])
        invariant !hit ==> forall k :: 0 <= k < j ==> items[i] !in subscribers[k]
      {
        hit := items[i] in subscribers[j];
        j := j + 1;
      }
      SelectNext(items[..i], items[i], subscribers, true);
      SelectNext(items[..i], items[i], subscribers, false);
      assert items[..i + 1] == items[..i] + [items[i]];
      if hit {
        wanted := wanted + [items[i]];
      } else {
        Store.HashSetNext(Select(items[..i], subscribers, false), items[i]);
        assert Elements(toDedup + [items[i].hash]) == Elements(toDedup) + {items[i].hash};
        toDedup := toDedup + [items[i].hash];
      }
      i := i + 1;
    }
    assert items[..i] == items;
  }

  class FeedRefresher {
    const store: Store.PostgresStore

    constructor (store: Store.PostgresStore)
      ensures this.store == store
    {
      this.store := store;
    }

    /** processEntriesFiltered: the number of fresh items, or the error that rolled everything back. */
    method ProcessEntriesFiltered(feed: int, items: seq<Item>, subscribers: seq<set<Item>>, relay: bool, now: int) returns (r: Result<nat, Error>)
      requires Inv(store.db)
      modifies store
      ensures Inv(store.db)
      ensures var want := ProcessFiltered(old(store.db), feed, items, subscribers, relay, now);
              if want.Ok? then store.db == want.value.db && r == Ok(want.value.newItems)
              else store.db == old(store.db) && r == Err(want.error)
    {
      if |items| == 0 {
        NothingNew(store.db, feed, [], {}, relay, now);
        assert Store.HashSet([]) == {};
        return Ok(0);
      }
      var asked := NonBlankHashes(items);
      var known := Known(store.db, feed) * Elements(asked);
      KnownOfBatch(store.db, feed, items, asked);
      var unseen := CollectFresh(items, known);
      var wanted, toDedup := Divide(unseen, subscribers);
      var stored := store.StoreFilteredPoll(feed, wanted, toDedup, relay, now);
      if stored.Err? {
        return Err(stored.error);
      }
      r := Ok(|unseen|);
    }

    /** storeFetched: the poll as a whole, and the fingerprint only after it succeeded. */
    method StoreFetched(feed: int, items: seq<Item>, subscribers: seq<set<Item>>, now: int) returns (r: Result<nat, Error>)
      requires Inv(store.db) && feed in store.db.feeds
      modifies store
      ensures Inv(store.db)
      ensures store.db == Poll(old(store.db), feed, items, subscribers, now)
      ensures r.Err? <==> !Skipped(old(store.db), feed, items) && Unstorable(old(store.db), feed, items, subscribers)
      ensures r.Err? || Skipped(old(store.db), feed, items) ==> store.db == old(store.db)
      ensures r.Ok? ==> r.value == if Skipped(old(store.db), feed, items) then 0 else |NewHashes(old(store.db), feed, items)|
      ensures !Skipped(old(store.db), feed, items) && r.Ok? ==> StoredPoll(old(store.db), store.db, feed, items, subscribers, now)
      ensures forall e :: e in store.db.entries && e !in old(store.db).entries ==>
                && store.db.entries[e].feed == feed && store.db.entries[e].createdAt == now
                && (old(store.db).feeds[feed].mode == Relay ==>
                      store.db.entries[e].removedAt == Some(now) && forall u :: UserEntry(e, u) !in store.db.unread)
                && (old(store.db).feeds[feed].mode != Relay ==>
                      store.db.entries[e].removedAt == None
                      && forall u :: UserEntry(e, u) in store.db.unread <==> Sub(u, feed) in old(store.db).subs)
    {
      PollInColumns(store.db, feed, items, subscribers, now);
      FailsIff(store.db, feed, items, subscribers, now);
      if !Unstorable(store.db, feed, items, subscribers) {
        CountInColumns(store.db, feed, items, subscribers, now);
      }
      var h := ItemSetHash(items);
      if h != "" && h == store.db.feeds[feed].itemsHash {
        return Ok(0);
      }
      var mode := store.db.feeds[feed].mode;
      ghost var start := store.db;
      r := StoreByMode(feed, items, subscribers, mode, now);
      if r.Ok? {
        ProcessKeeps(start, feed, items, subscribers, now);
        RowChangeKeeps(store.db, feed, h);
        store.db := SetFingerprint(store.db, feed, h);
      }
    }

    /** The path of the feed's store mode. */
    method StoreByMode(feed: int, items: seq<Item>, subscribers: seq<set<Item>>, mode: StoreMode, now: int) returns (r: Result<nat, Error>)
      requires Inv(store.db) && feed in store.db.feeds && mode == store.db.feeds[feed].mode
      modifies store
      ensures Inv(store.db)
      ensures var want := Process(old(store.db), feed, items, subscribers, now);
              if want.Ok? then store.db == want.value.db && r == Ok(want.value.newItems)
              else store.db == old(store.db) && r == Err(want.error)
    {
      if !mode.Full? {
        r := ProcessEntriesFiltered(feed, items, subscribers, mode.Relay?, now);
      } else {
        assert Elements<string>([]) == {};
        r := store.StoreFilteredPoll(feed, items, [], false, now);
      }
    }
  }
}
