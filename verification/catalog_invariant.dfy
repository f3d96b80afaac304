/**
  The inductive invariant of the tables, and that every statement of module
  Catalog keeps it.
 */
module CatalogInvariant {
  import opened Prelude
  import opened Catalog

  // ------------------------------------------------------------ the invariant

  /** Foreign keys, unique keys and sequences. */
  ghost predicate KeysHold(db: Db) {
    && (forall e :: e in db.entries ==> e < db.nextEntry && db.entries[e].feed in db.feeds && db.entries[e].hash != "")
    && (forall f :: f in db.feeds ==> f < db.nextFeed && (db.feeds[f].category.Some? ==> db.feeds[f].category.value in db.categories))
    && (forall p :: p in db.followers ==> p.category in db.categories)
    && (forall s :: s in db.subs ==> s.feed in db.feeds)
    && (forall d :: d in db.dedup ==> d.feed in db.feeds)
  }

  /** UNIQUE (feed_id, hash). */
  ghost predicate HashesUnique(db: Db) {
    forall a, b :: a in db.entries && b in db.entries && SameKey(db.entries[a], db.entries[b]) ==> a == b
  }

  ghost predicate SameKey(a: Entry, b: Entry) {
    a.feed == b.feed && a.hash == b.hash
  }

  /** An unread row belongs to a reader of the entry's feed, copies its columns and is not hidden. */
  ghost predicate UnreadRowSound(db: Db, k: UserEntry)
    requires k in db.unread
  {
    && Subscribed(db, k.user, k.entry)
    && db.unread[k] == Unread(db.entries[k.entry].feed, db.entries[k.entry].sortAt)
    && db.entries[k.entry].removedAt.None?
    && (k in db.marks ==> !db.marks[k].removed)
  }

  ghost predicate UnreadRowsSound(db: Db) {
    forall k :: k in db.unread ==> UnreadRowSound(db, k)
  }

  /** An exception row belongs to a reader, copies sort_at, says something, and a star is never on a hidden entry. */
  ghost predicate MarkSound(db: Db, k: UserEntry)
    requires k in db.marks
  {
    && Subscribed(db, k.user, k.entry)
    && db.marks[k].sortAt == db.entries[k.entry].sortAt
    && (db.marks[k].starred || db.marks[k].removed)
    && (db.marks[k].starred ==> db.entries[k.entry].removedAt.None?)
  }

  ghost predicate MarksSound(db: Db) {
    forall k :: k in db.marks ==> MarkSound(db, k)
  }

  /** Whoever follows a category is subscribed to every feed in it. */
  ghost predicate FollowersRead(db: Db) {
    forall p, f :: p in db.followers && f in db.feeds && db.feeds[f].category == Some(p.category) ==> Sub(p.user, f) in db.subs
  }

  ghost predicate Inv(db: Db) {
    KeysHold(db) && HashesUnique(db) && UnreadRowsSound(db) && MarksSound(db) && FollowersRead(db)
  }

  lemma EmptyDbHolds(db: Db)
    requires db.feeds == map[] && db.entries == map[] && db.followers == {} && db.subs == {} && db.dedup == {}
    requires db.unread == map[] && db.marks == map[]
    ensures Inv(db)
  {
  }

  // -------------------------------------------- statements on the per-user rows

  ghost predicate SameRemoval(db: Db, d: Db, k: UserEntry) {
    k in d.marks ==> k in db.marks && d.marks[k].removed == db.marks[k].removed
  }

  /** Rows stay sound when subscriptions only grow and entries keep their columns. */
  lemma RowsCarryOver(db: Db, d: Db)
    requires UnreadRowsSound(db) && MarksSound(db)
    requires forall e :: e in db.entries ==> e in d.entries && d.entries[e] == db.entries[e]
    requires db.subs <= d.subs
    ensures forall k :: k in db.marks && k in d.marks && d.marks[k] == db.marks[k] ==> MarkSound(d, k)
    ensures forall k :: k in db.unread && k in d.unread && d.unread[k] == db.unread[k] && SameRemoval(db, d, k) ==> UnreadRowSound(d, k)
  {
  }

  lemma MarkReadKeeps(db: Db, user: int, ids: set<int>)
    requires Inv(db)
    ensures Inv(MarkRead(db, user, ids))
  {
    RowsCarryOver(db, MarkRead(db, user, ids));
  }

  lemma MarkUnreadKeeps(db: Db, user: int, ids: set<int>)
    requires Inv(db)
    ensures Inv(MarkUnread(db, user, ids))
  {
    var d := MarkUnread(db, user, ids);
    RowsCarryOver(db, d);
    forall k | k in d.unread ensures UnreadRowSound(d, k) {
      if k !in db.unread {
        assert k.entry in UnreadTargets(db, user, ids);
      }
    }
  }

  lemma StarKeeps(db: Db, user: int, ids: set<int>, now: int)
    requires Inv(db)
    ensures Inv(Star(db, user, ids, now))
  {
    var d := Star(db, user, ids, now);
    RowsCarryOver(db, d);
    forall k | k in d.marks ensures MarkSound(d, k) && (k in db.marks ==> d.marks[k].removed == db.marks[k].removed) {
      if k.user == user && k.entry in StarTargets(db, user, ids) {
        assert d.marks[k] == StarredRow(db, user, k.entry, now);
      } else {
        assert k in db.marks && d.marks[k] == db.marks[k];
      }
    }
    forall k | k in d.unread ensures UnreadRowSound(d, k) {
      assert UnreadRowSound(db, k);
      if k in d.marks && k !in db.marks {
        assert d.marks[k] == StarredRow(db, user, k.entry, now);
      }
    }
  }

  lemma UnstarKeeps(db: Db, user: int, ids: set<int>)
    requires Inv(db)
    ensures Inv(Unstar(db, user, ids))
  {
    RowsCarryOver(db, Unstar(db, user, ids));
  }

  lemma RemoveForKeeps(db: Db, user: int, ids: set<int>, targets: set<int>, now: int)
    requires Inv(db)
    requires targets <= ids && targets <= db.entries.Keys && forall e :: e in targets ==> Subscribed(db, user, e)
    ensures Inv(RemoveFor(db, user, ids, targets, now))
  {
    var d := RemoveFor(db, user, ids, targets, now);
    RowsCarryOver(db, d);
    forall k | k in d.marks
      ensures MarkSound(d, k) && (k in db.marks && !(k.user == user && k.entry in targets) ==> d.marks[k] == db.marks[k])
    {
      if k.user == user && k.entry in targets {
        assert d.marks[k] == RemovedRow(db, user, k.entry, now);
        assert k in db.marks ==> MarkSound(db, k);
      } else {
        assert k in db.marks && d.marks[k] == db.marks[k];
      }
    }
    forall k | k in d.unread ensures UnreadRowSound(d, k) {
      assert !(k.user == user && k.entry in targets);
      assert UnreadRowSound(db, k);
    }
  }

  lemma RemoveKeeps(db: Db, user: int, ids: set<int>, now: int)
    requires Inv(db)
    ensures Inv(Remove(db, user, ids, now))
  {
    RemoveForKeeps(db, user, ids, (set e | e in ids && Subscribed(db, user, e)), now);
  }

  /**
    MarkEntryRemovedKeepPayload has no subscription test, and exactly when the
    entry exists and the webhook's owner does not read its feed it leaves an
    exception row that belongs to nobody.
   */
  lemma RemoveKeepPayloadKeepsIff(db: Db, user: int, entry: int, now: int)
    requires Inv(db)
    ensures Inv(RemoveKeepPayload(db, user, entry, now)) <==> (entry in db.entries ==> Subscribed(db, user, entry))
  {
    var d := RemoveKeepPayload(db, user, entry, now);
    if entry !in db.entries {
      RemoveForKeeps(db, user, {entry}, {}, now);
    } else if Subscribed(db, user, entry) {
      assert {entry} * db.entries.Keys == {entry};
      RemoveForKeeps(db, user, {entry}, {entry}, now);
    } else {
      assert UserEntry(entry, user) in d.marks;
      assert !Subscribed(d, user, entry);
    }
  }

  // ------------------------------------------------------------------- entries

  lemma StripKeeps(db: Db, entry: int, now: int)
    requires Inv(db)
    ensures Inv(Strip(db, entry, now))
  {
    var d := Strip(db, entry, now);
    forall k | k in d.unread ensures UnreadRowSound(d, k) {
      assert UnreadRowSound(db, k);
    }
    forall k | k in d.marks ensures MarkSound(d, k) {
      assert MarkSound(db, k);
    }
  }

  lemma DeleteEntriesKeeps(db: Db, doomed: set<int>, keepHashes: bool)
    requires Inv(db)
    ensures Inv(DeleteEntries(db, doomed, keepHashes))
  {
    var d := DeleteEntries(db, doomed, keepHashes);
    forall k | k in d.unread ensures UnreadRowSound(d, k) {
      assert UnreadRowSound(db, k);
    }
    forall k | k in d.marks ensures MarkSound(d, k) {
      assert MarkSound(db, k);
    }
  }

  lemma RecordDedupKeeps(db: Db, feed: int, hashes: set<string>)
    requires Inv(db) && feed in db.feeds
    ensures Inv(RecordDedup(db, feed, hashes))
  {
  }

  /** What Fresh returns: distinct hashes, none known, all from the batch. */
  lemma {:induction false} FreshSound(items: seq<Item>, known: set<string>)
    ensures |Fresh(items, known)| <= |items|
    ensures forall x :: x in Fresh(items, known) ==> x in items && x.hash !in known
    ensures forall i, j :: 0 <= i < j < |Fresh(items, known)| ==> Fresh(items, known)[i].hash != Fresh(items, known)[j].hash
    decreases |items|
  {
    if items != [] {
      if items[0].hash in known {
        FreshSound(items[1..], known);
      } else {
        FreshSound(items[1..], known + {items[0].hash});
        var rest := Fresh(items[1..], known + {items[0].hash});
        forall j | 1 <= j < |Fresh(items, known)|
          ensures Fresh(items, known)[0].hash != Fresh(items, known)[j].hash
        {
          assert Fresh(items, known)[j] == rest[j - 1] && rest[j - 1] in rest;
        }
      }
    }
  }

  /** Together with what was known, the fresh items cover the batch. */
  lemma {:induction false} FreshComplete(items: seq<Item>, known: set<string>)
    ensures forall x :: x in items ==> x.hash in known + (set y | y in Fresh(items, known) :: y.hash)
    decreases |items|
  {
    if items != [] {
      var k := if items[0].hash in known then known else known + {items[0].hash};
      FreshComplete(items[1..], k);
      forall x | x in items ensures x.hash in known + (set y | y in Fresh(items, known) :: y.hash) {
        if x != items[0] {
          assert x in items[1..];
        }
      }
    }
  }

  ghost predicate Insertable(db: Db, feed: int, added: seq<Item>) {
    && feed in db.feeds
    && (forall i :: 0 <= i < |added| ==> added[i].hash != "" && added[i].hash !in Known(db, feed))
    && (forall i, j :: 0 <= i < j < |added| ==> added[i].hash != added[j].hash)
  }

  /** The new rows, one by one. */
  lemma InsertedEntries(db: Db, feed: int, added: seq<Item>, relay: bool, now: int)
    requires KeysHold(db)
    ensures var d := InsertRows(db, feed, added, relay, now);
            && (forall e :: e in db.entries ==> e in d.entries && d.entries[e] == db.entries[e] && !InRange(e, db.nextEntry, |added|))
            && (forall e :: e in d.entries && e !in db.entries ==>
                  InRange(e, db.nextEntry, |added|) && d.entries[e].feed == feed
                  && d.entries[e].hash == added[e - db.nextEntry].hash && d.entries[e].sortAt == added[e - db.nextEntry].sortAt
                  && d.entries[e].removedAt == (if relay then Some(now) else None))
            && (forall e :: InRange(e, db.nextEntry, |added|) ==> e in d.entries && e !in db.entries)
  {
  }

  lemma InsertedHashesUnique(db: Db, feed: int, added: seq<Item>, relay: bool, now: int)
    requires KeysHold(db) && HashesUnique(db) && Insertable(db, feed, added)
    ensures HashesUnique(InsertRows(db, feed, added, relay, now))
  {
  }

  lemma InsertRowsKeeps(db: Db, feed: int, added: seq<Item>, relay: bool, now: int)
    requires Inv(db) && Insertable(db, feed, added)
    ensures Inv(InsertRows(db, feed, added, relay, now))
  {
    var d := InsertRows(db, feed, added, relay, now);
    InsertedEntries(db, feed, added, relay, now);
    InsertedHashesUnique(db, feed, added, relay, now);
    InsertedRowsSound(db, feed, added, relay, now);
  }

  lemma InsertedRowsSound(db: Db, feed: int, added: seq<Item>, relay: bool, now: int)
    requires KeysHold(db) && UnreadRowsSound(db) && MarksSound(db)
    ensures UnreadRowsSound(InsertRows(db, feed, added, relay, now)) && MarksSound(InsertRows(db, feed, added, relay, now))
  {
    var d := InsertRows(db, feed, added, relay, now);
    InsertedEntries(db, feed, added, relay, now);
    forall k | k in d.marks ensures MarkSound(d, k) {
      assert MarkSound(db, k);
    }
    forall k | k in d.unread ensures UnreadRowSound(d, k) {
      if k in db.unread && (relay || k !in FanOut(feed, added, db.nextEntry, ReadersOf(db, feed))) {
        assert UnreadRowSound(db, k);
      } else {
        NoMarkYet(db, k);
        NewUnreadRowSound(db, feed, added, now, k);
      }
    }
  }

  lemma NoMarkYet(db: Db, k: UserEntry)
    requires KeysHold(db) && MarksSound(db) && k.entry >= db.nextEntry
    ensures k !in db.marks
  {
    assert k in db.marks ==> MarkSound(db, k);
  }

  lemma NewRowColumns(db: Db, feed: int, added: seq<Item>, now: int, e: int)
    requires InRange(e, db.nextEntry, |added|)
    ensures var d := InsertRows(db, feed, added, false, now);
            && e in d.entries && d.entries[e].feed == feed && d.entries[e].sortAt == added[e - db.nextEntry].sortAt
            && d.entries[e].removedAt.None? && d.subs == db.subs && d.marks == db.marks
  {
  }

  lemma NewUnreadRowSound(db: Db, feed: int, added: seq<Item>, now: int, k: UserEntry)
    requires k in FanOut(feed, added, db.nextEntry, ReadersOf(db, feed)) && k !in db.marks
    ensures UnreadRowSound(InsertRows(db, feed, added, false, now), k)
  {
    NewRowColumns(db, feed, added, now, k.entry);
    assert Sub(k.user, feed) in db.subs;
  }

  lemma CreateEntriesKeeps(db: Db, feed: int, items: seq<Item>, relay: bool, now: int)
    requires Inv(db)
    ensures CreateEntries(db, feed, items, relay, now).Ok? ==> Inv(CreateEntries(db, feed, items, relay, now).value)
  {
    if CreateEntries(db, feed, items, relay, now).Ok? && items != [] {
      var added := Fresh(items, Known(db, feed));
      FreshSound(items, Known(db, feed));
      if added != [] {
        forall i | 0 <= i < |added| ensures added[i].hash != "" && added[i].hash !in Known(db, feed) {
          assert added[i] in added && added[i] in items;
        }
        InsertRowsKeeps(db, feed, added, relay, now);
      }
    }
  }

  // ------------------------------------------------------------- subscriptions

  /** No stale row can be in the way of a new subscriber: that is where the backfill needs the invariant. */
  lemma SubscribePairsKeeps(db: Db, pairs: set<Sub>)
    requires KeysHold(db) && HashesUnique(db) && UnreadRowsSound(db) && MarksSound(db)
    requires forall p :: p in pairs ==> p !in db.subs && p.feed in db.feeds
    ensures var d := SubscribePairs(db, pairs);
            KeysHold(d) && HashesUnique(d) && UnreadRowsSound(d) && MarksSound(d) && db.subs <= d.subs
  {
    var d := SubscribePairs(db, pairs);
    RowsCarryOver(db, d);
    forall k | k in d.unread ensures UnreadRowSound(d, k) {
      if k !in db.unread {
        assert k in BackfillKeys(db, pairs);
        var p, e :| p in pairs && e in Backfill(db, p.feed) && k == UserEntry(e, p.user);
        assert p == Sub(k.user, db.entries[k.entry].feed);
        assert k !in db.marks;
      }
    }
  }

  lemma UnsubscribePairsKeeps(db: Db, pairs: set<Sub>)
    requires KeysHold(db) && HashesUnique(db) && UnreadRowsSound(db) && MarksSound(db)
    ensures var d := UnsubscribePairs(db, pairs);
            KeysHold(d) && HashesUnique(d) && UnreadRowsSound(d) && MarksSound(d)
  {
  }

  lemma SubscribeOneKeeps(db: Db, user: int, feed: int)
    requires Inv(db)
    ensures SubscribeOne(db, user, feed).Ok? ==> Inv(SubscribeOne(db, user, feed).value)
  {
    if SubscribeOne(db, user, feed).Ok? {
      SubscribePairsKeeps(db, {Sub(user, feed)});
    }
  }

  lemma UnsubscribeKeeps(db: Db, user: int, feed: int)
    requires Inv(db)
    ensures Unsubscribe(db, user, feed).Ok? ==> Inv(Unsubscribe(db, user, feed).value)
  {
    if Unsubscribe(db, user, feed).Ok? {
      UnsubscribePairsKeeps(db, {Sub(user, feed)});
    }
  }

  lemma NewFollowerSound(db: Db, p: Follow)
    requires Sound(db) && p.category in db.categories
    ensures Sound(db.(followers := db.followers + {p}))
  {
    RowsCarryOver(db, db.(followers := db.followers + {p}));
  }

  /** The new follower reads every feed of the category, and everybody else what they read before. */
  lemma NewFollowerReads(db: Db, r: Db, p: Follow)
    requires FollowersRead(db) && r.feeds == db.feeds && r.followers == db.followers + {p} && db.subs <= r.subs
    requires PairsOfUser(p.user, FeedsOf(db, p.category)) <= r.subs
    ensures FollowersRead(r)
  {
    forall q, f | q in r.followers && f in r.feeds && r.feeds[f].category == Some(q.category) ensures Sub(q.user, f) in r.subs {
      if q !in db.followers {
        assert f in FeedsOf(db, p.category) && Sub(p.user, f) in PairsOfUser(p.user, FeedsOf(db, p.category));
      }
    }
  }

  lemma FollowCategoryKeeps(db: Db, user: int, category: int)
    requires Inv(db)
    ensures FollowCategory(db, user, category).Ok? ==> Inv(FollowCategory(db, user, category).value)
  {
    if FollowCategory(db, user, category).Ok? {
      var d := db.(followers := db.followers + {Follow(category, user)});
      var pairs := PairsOfUser(user, FeedsOf(db, category)) - db.subs;
      NewFollowerSound(db, Follow(category, user));
      SubscribePairsKeeps(d, pairs);
      NewFollowerReads(db, SubscribePairs(d, pairs), Follow(category, user));
    }
  }

  lemma UnfollowCategoryKeeps(db: Db, user: int, category: int)
    requires Inv(db)
    ensures UnfollowCategory(db, user, category).Ok? ==> Inv(UnfollowCategory(db, user, category).value)
  {
    if UnfollowCategory(db, user, category).Ok? {
      var d := db.(followers := db.followers - {Follow(category, user)});
      UnsubscribePairsKeeps(d, PairsOfUser(user, FeedsOf(db, category)) * db.subs);
    }
  }

  // ------------------------------------------------------------- the catalogue

  ghost predicate Sound(db: Db) {
    KeysHold(db) && HashesUnique(db) && UnreadRowsSound(db) && MarksSound(db)
  }

  ghost predicate FollowersReadExcept(db: Db, feed: int) {
    forall p, f :: p in db.followers && f in db.feeds && f != feed && db.feeds[f].category == Some(p.category) ==> Sub(p.user, f) in db.subs
  }

  /** subscribeFollowersTx closes the gap a new or moved feed leaves. */
  lemma SubscribeFollowersCloses(db: Db, feed: int, category: int)
    requires Sound(db) && FollowersReadExcept(db, feed)
    requires feed in db.feeds && db.feeds[feed].category == Some(category)
    ensures Inv(SubscribePairs(db, PairsOfFeed(FollowersOf(db, category), feed) - db.subs))
  {
    var gain := PairsOfFeed(FollowersOf(db, category), feed) - db.subs;
    SubscribePairsKeeps(db, gain);
    forall p | p in db.followers && p.category == category ensures Sub(p.user, feed) in db.subs + gain {
      assert p.user in FollowersOf(db, category);
      assert Sub(p.user, feed) in PairsOfFeed(FollowersOf(db, category), feed);
    }
  }

  /** Columns of a feed row other than the category are not part of the invariant. */
  lemma FeedRowKeeps(db: Db, feed: int, row: Feed)
    requires Sound(db) && feed in db.feeds && (row.category.Some? ==> row.category.value in db.categories)
    ensures Sound(db.(feeds := db.feeds[feed := row]))
  {
  }

  lemma MoveFeedKeeps(db: Db, feed: int, newCat: Option<int>)
    requires Inv(db) && feed in db.feeds
    requires newCat.Some? ==> newCat.value in db.categories
    ensures Inv(MoveFeed(db, feed, newCat)) && MoveFeed(db, feed, newCat).feeds.Keys == db.feeds.Keys
    ensures MoveFeed(db, feed, newCat).categories == db.categories
  {
    var oldCat := db.feeds[feed].category;
    var d0 := db.(feeds := db.feeds[feed := db.feeds[feed].(category := newCat)]);
    FeedRowKeeps(db, feed, d0.feeds[feed]);
    var d1 := UnsubscribePairs(d0, Losers(d0, feed, oldCat, newCat));
    UnsubscribePairsKeeps(d0, Losers(d0, feed, oldCat, newCat));
    if newCat.Some? && oldCat != newCat {
      SubscribeFollowersCloses(d1, feed, newCat.value);
    } else {
      assert Gainers(d1, feed, oldCat, newCat) == {};
      SubscribePairsKeeps(d1, {});
    }
  }

  lemma {:induction false} MoveAllKeeps(db: Db, ids: seq<int>, newCat: Option<int>)
    requires Inv(db) && forall i :: 0 <= i < |ids| ==> ids[i] in db.feeds
    requires newCat.Some? ==> newCat.value in db.categories
    ensures Inv(MoveAll(db, ids, newCat))
    decreases |ids|
  {
    if ids != [] {
      MoveFeedKeeps(db, ids[0], newCat);
      MoveAllKeeps(MoveFeed(db, ids[0], newCat), ids[1..], newCat);
    }
  }

  lemma AddFeedSound(db: Db, feed: Feed, owners: set<int>)
    requires Inv(db) && (feed.category.Some? ==> feed.category.value in db.categories)
    ensures Sound(AddFeed(db, feed, owners)) && FollowersReadExcept(AddFeed(db, feed, owners), db.nextFeed)
  {
  }

  lemma CreateFeedKeeps(db: Db, owner: int, feed: Feed, skipOwner: bool)
    requires Inv(db)
    ensures CreateFeed(db, owner, feed, skipOwner).Ok? ==> Inv(CreateFeed(db, owner, feed, skipOwner).value)
  {
    if CreateFeed(db, owner, feed, skipOwner).Ok? {
      var owners := if skipOwner then {} else {owner};
      var d := AddFeed(db, feed, owners);
      AddFeedSound(db, feed, owners);
      if feed.category.Some? {
        SubscribeFollowersCloses(d, db.nextFeed, feed.category.value);
      } else {
        assert FollowersRead(d);
      }
    }
  }

  lemma UpdateFeedKeeps(db: Db, id: int, newCat: Option<int>, mode: StoreMode, retentionDays: Option<int>, sameUrl: bool)
    requires Inv(db)
    ensures var r := UpdateFeed(db, id, newCat, mode, retentionDays, sameUrl); r.Ok? ==> Inv(r.value)
  {
    if id in db.feeds && (newCat.Some? ==> newCat.value in db.categories) {
      var d := Reconfigure(db, id, mode, retentionDays, sameUrl);
      FeedRowKeeps(db, id, d.feeds[id]);
      assert FollowersRead(d);
      MoveFeedKeeps(d, id, newCat);
    }
  }

  lemma DeleteFeedKeeps(db: Db, id: int)
    requires Inv(db)
    ensures DeleteFeed(db, id).Ok? ==> Inv(DeleteFeed(db, id).value)
  {
    if DeleteFeed(db, id).Ok? {
      var doomed := set e | e in db.entries && db.entries[e].feed == id;
      DeleteEntriesKeeps(db, doomed, false);
      var d0 := DeleteEntries(db, doomed, false);
      var d := DeleteFeed(db, id).value;
      forall k | k in d.unread ensures UnreadRowSound(d, k) {
        assert UnreadRowSound(d0, k);
      }
      forall k | k in d.marks ensures MarkSound(d, k) {
        assert MarkSound(d0, k);
      }
    }
  }

  lemma DeleteCategoryKeeps(db: Db, id: int)
    requires Inv(db)
    ensures DeleteCategory(db, id).Ok? ==> Inv(DeleteCategory(db, id).value)
  {
    if DeleteCategory(db, id).Ok? {
      var d := DeleteCategory(db, id).value;
      forall f | f in d.feeds && d.feeds[f].category.Some? ensures d.feeds[f].category.value in d.categories {
        assert f !in FeedsOf(db, id);
      }
      RowsCarryOver(db, d);
    }
  }
}
