/** What subscriptions, new entries and deleted feeds change for each reader, and what they leave alone. */
module CatalogViews {
  import opened Prelude
  import opened Catalog
  import opened CatalogInvariant
  import opened EntryUpdates

  /** An entry as somebody sees it who has no row on it. */
  function Untouched(db: Db, entry: int): View {
    View(if HiddenForAll(db, entry) then IsRemoved else IsRead, false)
  }

  lemma NoRows(db: Db, user: int, entry: int)
    requires Inv(db) && !Subscribed(db, user, entry)
    ensures UserEntry(entry, user) !in db.unread && UserEntry(entry, user) !in db.marks
    ensures Shown(db, user, entry) == Untouched(db, entry)
  {
    var k := UserEntry(entry, user);
    assert k in db.unread ==> UnreadRowSound(db, k);
    assert k in db.marks ==> MarkSound(db, k);
  }

  lemma BackfillKeyIff(db: Db, p: Sub, k: UserEntry)
    ensures k in BackfillKeys(db, {p}) <==> k.user == p.user && k.entry in Backfill(db, p.feed)
  {
    if k.user == p.user && k.entry in Backfill(db, p.feed) {
      assert k == UserEntry(k.entry, p.user);
    }
  }

  /** A new subscriber sees exactly the backfill as unread; nobody else and nothing else changes. */
  lemma SubscribeView(db: Db, user: int, feed: int, u: int, e: int)
    requires Inv(db) && SubscribeOne(db, user, feed).Ok? && e in db.entries
    ensures var d := SubscribeOne(db, user, feed).value;
            && (Subscribed(d, u, e) <==> Subscribed(db, u, e) || (u == user && db.entries[e].feed == feed))
            && Shown(d, u, e) == if u == user && e in Backfill(db, feed) then View(IsUnread, false) else Shown(db, u, e)
  {
    BackfillKeyIff(db, Sub(user, feed), UserEntry(e, u));
    if u == user && e in Backfill(db, feed) {
      NoRows(db, u, e);
    }
  }

  /** Whoever unsubscribes loses every trace on the feed's entries; nobody else and nothing else changes. */
  lemma UnsubscribeView(db: Db, user: int, feed: int, u: int, e: int)
    requires Inv(db) && UnsubscribeOne(db, user, feed).Ok? && e in db.entries
    ensures var d := UnsubscribeOne(db, user, feed).value;
            && (Subscribed(d, u, e) <==> Subscribed(db, u, e) && !(u == user && db.entries[e].feed == feed))
            && Shown(d, u, e) == if u == user && db.entries[e].feed == feed then Untouched(db, e) else Shown(db, u, e)
  {
    var k := UserEntry(e, u);
    assert k in db.unread ==> UnreadRowSound(db, k);
  }

  lemma OldEntryView(db: Db, feed: int, added: seq<Item>, relay: bool, now: int, u: int, e: int)
    requires e in db.entries && e < db.nextEntry
    ensures var d := InsertRows(db, feed, added, relay, now);
            e in d.entries && d.entries[e] == db.entries[e] && Shown(d, u, e) == Shown(db, u, e)
  {
  }

  lemma NewEntryView(db: Db, feed: int, added: seq<Item>, relay: bool, now: int, u: int, e: int)
    requires InRange(e, db.nextEntry, |added|) && UserEntry(e, u) !in db.unread && UserEntry(e, u) !in db.marks
    ensures var d := InsertRows(db, feed, added, relay, now);
            && e in d.entries && d.entries[e].feed == feed
            && Shown(d, u, e) == View(if relay then IsRemoved else if Sub(u, feed) in db.subs then IsUnread else IsRead, false)
  {
    assert u in ReadersOf(db, feed) <==> Sub(u, feed) in db.subs;
  }

  /** New entries are unread for every current reader of the feed and hidden from all when relayed; old ones look as before. */
  lemma CreateView(db: Db, feed: int, items: seq<Item>, relay: bool, now: int, u: int, e: int)
    requires Inv(db) && CreateEntries(db, feed, items, relay, now).Ok?
    ensures var d := CreateEntries(db, feed, items, relay, now).value;
            && (e in db.entries ==> e in d.entries && d.entries[e] == db.entries[e] && Shown(d, u, e) == Shown(db, u, e))
            && (e in d.entries && e !in db.entries ==>
                  d.entries[e].feed == feed &&
                  Shown(d, u, e) == View(if relay then IsRemoved else if Sub(u, feed) in db.subs then IsUnread else IsRead, false))
  {
    var added := Fresh(items, Known(db, feed));
    if e in db.entries {
      OldEntryView(db, feed, added, relay, now, u, e);
    } else {
      NoRows(db, u, e);
      if InRange(e, db.nextEntry, |added|) {
        NewEntryView(db, feed, added, relay, now, u, e);
      }
    }
  }

  /** The readers of a new feed are its creator, unless that is skipped, and the followers of its category. */
  lemma CreatedFeedReaders(db: Db, owner: int, row: Feed, skipOwner: bool, u: int, f: int)
    requires Inv(db) && CreateFeed(db, owner, row, skipOwner).Ok?
    ensures var d := CreateFeed(db, owner, row, skipOwner).value;
            && d.feeds.Keys == db.feeds.Keys + {db.nextFeed} && db.nextFeed !in db.feeds && d.feeds[db.nextFeed].itemsHash == ""
            && (Sub(u, db.nextFeed) in d.subs <==>
                  (u == owner && !skipOwner) || (row.category.Some? && Follow(row.category.value, u) in db.followers))
            && (f != db.nextFeed ==> (Sub(u, f) in d.subs <==> Sub(u, f) in db.subs))
  {
    var owners := if skipOwner then {} else {owner};
    var d := AddFeed(db, row, owners);
    assert Sub(u, db.nextFeed) in PairsOfFeed(owners, db.nextFeed) <==> u == owner && !skipOwner;
    if row.category.Some? {
      assert u in FollowersOf(d, row.category.value) <==> Follow(row.category.value, u) in db.followers;
      assert Sub(u, db.nextFeed) in PairsOfFeed(FollowersOf(d, row.category.value), db.nextFeed) <==> u in FollowersOf(d, row.category.value);
    }
  }

  /** Deleting a feed leaves the entries of all others with their rows. */
  lemma DeleteFeedLeavesOthers(db: Db, feed: int, u: int, e: int)
    requires Inv(db) && DeleteFeed(db, feed).Ok? && e in db.entries
    ensures var d := DeleteFeed(db, feed).value;
            && (e in d.entries <==> db.entries[e].feed != feed)
            && (db.entries[e].feed != feed ==> d.entries[e] == db.entries[e] && Shown(d, u, e) == Shown(db, u, e)
                                               && (Subscribed(d, u, e) <==> Subscribed(db, u, e)))
  {
  }
}
