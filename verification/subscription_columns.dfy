/**
  Subscriptions, followed categories and moved feeds in columns: which rows a
  change of readers brings and takes, and who the readers are afterwards.
 */
module SubscriptionColumns {
  import opened Prelude
  import opened Catalog
  import opened CatalogInvariant

  /** A visible entry of the feed with fewer than 100 newer ones. */
  ghost predicate AmongNewest(rows: map<int, Entry>, feed: int, e: int) {
    && e in rows && rows[e].feed == feed && rows[e].removedAt == None
    && |set x | x in rows && rows[x].feed == feed && rows[x].removedAt == None
                && (rows[x].sortAt > rows[e].sortAt || (rows[x].sortAt == rows[e].sortAt && x > e))| < 100
  }

  lemma BackfillInColumns(db: Db, feed: int, e: int)
    ensures e in Backfill(db, feed) <==> AmongNewest(db.entries, feed, e)
  {
    if e in VisibleEntries(db, feed) {
      assert (set x | x in VisibleEntries(db, feed) && Newer(db, x, e))
          == (set x | x in db.entries && db.entries[x].feed == feed && db.entries[x].removedAt == None
                      && (db.entries[x].sortAt > db.entries[e].sortAt || (db.entries[x].sortAt == db.entries[e].sortAt && x > e)));
    }
  }

  /** The pair a row of a user on an entry belongs to is one of these. */
  predicate Concerns(rows: map<int, Entry>, pairs: set<Sub>, user: int, entry: int) {
    entry in rows && Sub(user, rows[entry].feed) in pairs
  }

  /** Unread rows go with their pair; a new pair gets one for each of the newest entries. */
  ghost predicate UnreadChanged(rows: map<int, Entry>, was: map<UserEntry, Unread>, unread: map<UserEntry, Unread>, lost: set<Sub>, gained: set<Sub>) {
    forall k :: k in unread <==>
      (k in was && !Concerns(rows, lost, k.user, k.entry))
      || (Concerns(rows, gained, k.user, k.entry) && AmongNewest(rows, rows[k.entry].feed, k.entry))
  }

  /** Exception rows go with their pair. */
  ghost predicate MarksChanged(rows: map<int, Entry>, was: map<UserEntry, Mark>, marks: map<UserEntry, Mark>, lost: set<Sub>) {
    && (forall k :: k in marks <==> k in was && !Concerns(rows, lost, k.user, k.entry))
    && (forall k :: k in marks ==> marks[k] == was[k])
  }

  /** Labels of the reader go too. */
  ghost predicate LabelsChanged(db: Db, labels: set<EntryLabel>, lost: set<Sub>) {
    forall l :: l in labels <==>
      l in db.entryLabels && !(l.labelId in db.labelOwner && Concerns(db.entries, lost, db.labelOwner[l.labelId], l.entry))
  }

  /** These pairs are gone with their rows, those came with theirs, and no other row changed. */
  ghost predicate ReadersChanged(db: Db, d: Db, lost: set<Sub>, gained: set<Sub>) {
    && d.subs == (db.subs - lost) + gained
    && UnreadChanged(db.entries, db.unread, d.unread, lost, gained)
    && MarksChanged(db.entries, db.marks, d.marks, lost)
    && LabelsChanged(db, d.entryLabels, lost)
    && d.entries == db.entries && d.dedup == db.dedup && d.labelOwner == db.labelOwner && d.logs == db.logs
    && d.categories == db.categories && d.nextEntry == db.nextEntry
  }

  lemma SubscribedInColumns(db: Db, pairs: set<Sub>)
    ensures ReadersChanged(db, SubscribePairs(db, pairs), {}, pairs)
  {
    var d := SubscribePairs(db, pairs);
    forall k ensures k in d.unread <==> k in db.unread || (Concerns(db.entries, pairs, k.user, k.entry) && AmongNewest(db.entries, db.entries[k.entry].feed, k.entry)) {
      BackfillRow(db, pairs, k);
    }
  }

  lemma BackfillRow(db: Db, pairs: set<Sub>, k: UserEntry)
    ensures k in UnreadFor(db, BackfillKeys(db, pairs)) <==>
            Concerns(db.entries, pairs, k.user, k.entry) && AmongNewest(db.entries, db.entries[k.entry].feed, k.entry)
  {
    if k.entry in db.entries {
      var feed := db.entries[k.entry].feed;
      BackfillInColumns(db, feed, k.entry);
      if Sub(k.user, feed) in pairs && k.entry in Backfill(db, feed) {
        assert k == UserEntry(k.entry, Sub(k.user, feed).user) && k in BackfillKeys(db, pairs);
      }
      if k in BackfillKeys(db, pairs) {
        var p, e :| p in pairs && e in Backfill(db, p.feed) && k == UserEntry(e, p.user);
        assert p == Sub(k.user, feed);
      }
    }
  }

  lemma UnsubscribedInColumns(db: Db, pairs: set<Sub>)
    requires UnreadRowsSound(db)
    ensures ReadersChanged(db, UnsubscribePairs(db, pairs), pairs, {})
  {
    forall k | k in db.unread ensures k.entry in db.entries && db.unread[k].feed == db.entries[k.entry].feed {
      assert UnreadRowSound(db, k);
    }
  }

  /** One change after another. */
  lemma ChangedAgain(db: Db, c: Db, d: Db, lost: set<Sub>, gained: set<Sub>, lostNext: set<Sub>, gainedNext: set<Sub>)
    requires ReadersChanged(db, c, lost, gained) && ReadersChanged(c, d, lostNext, gainedNext) && gained !! lostNext
    ensures ReadersChanged(db, d, lost + lostNext, gained + gainedNext)
  {
    UnreadAgain(db.entries, db.unread, c.unread, d.unread, lost, gained, lostNext, gainedNext);
    MarksAgain(db.entries, db.marks, c.marks, d.marks, lost, lostNext);
  }

  lemma UnreadAgain(rows: map<int, Entry>, a: map<UserEntry, Unread>, b: map<UserEntry, Unread>, c: map<UserEntry, Unread>,
                    lost: set<Sub>, gained: set<Sub>, lostNext: set<Sub>, gainedNext: set<Sub>)
    requires UnreadChanged(rows, a, b, lost, gained) && UnreadChanged(rows, b, c, lostNext, gainedNext) && gained !! lostNext
    ensures UnreadChanged(rows, a, c, lost + lostNext, gained + gainedNext)
  {
  }

  lemma MarksAgain(rows: map<int, Entry>, a: map<UserEntry, Mark>, b: map<UserEntry, Mark>, c: map<UserEntry, Mark>, lost: set<Sub>, lostNext: set<Sub>)
    requires MarksChanged(rows, a, b, lost) && MarksChanged(rows, b, c, lostNext)
    ensures MarksChanged(rows, a, c, lost + lostNext)
  {
  }

  // ------------------------------------------------------------- moved feeds

  predicate Reads(db: Db, category: Option<int>, user: int) {
    category.Some? && Follow(category.value, user) in db.followers
  }

  /** The pairs a move ends: readers through the old category who do not follow the new one. */
  function Leaving(db: Db, moved: set<int>, oldCat: Option<int>, newCat: Option<int>): set<Sub> {
    set s | s in db.subs && s.feed in moved && Reads(db, oldCat, s.user) && !Reads(db, newCat, s.user)
  }

  /** The pairs it brings: followers of the new category who did not read the feed. */
  function Joining(db: Db, moved: set<int>, newCat: Option<int>): set<Sub> {
    set f, p | f in moved && p in db.followers && newCat == Some(p.category) && Sub(p.user, f) !in db.subs :: Sub(p.user, f)
  }

  /** Feeds of one category after a move. */
  ghost predicate Moved(db: Db, d: Db, moved: set<int>, oldCat: Option<int>, newCat: Option<int>) {
    && d.feeds.Keys == db.feeds.Keys
    && (forall f :: f in db.feeds ==> d.feeds[f] == if f in moved then db.feeds[f].(category := newCat) else db.feeds[f])
    && d.followers == db.followers && d.nextFeed == db.nextFeed
    && ReadersChanged(db, d, Leaving(db, moved, oldCat, newCat), Joining(db, moved, newCat))
  }

  lemma JoiningIs(db: Db, feed: int, newCat: Option<int>, user: int, f: int)
    ensures Sub(user, f) in Joining(db, {feed}, newCat) <==> f == feed && Reads(db, newCat, user) && Sub(user, f) !in db.subs
  {
    if f == feed && Reads(db, newCat, user) && Sub(user, f) !in db.subs {
      assert Follow(newCat.value, user).user == user;
    }
  }

  lemma MoveFeedInColumns(db: Db, feed: int, newCat: Option<int>)
    requires Inv(db) && feed in db.feeds
    ensures Moved(db, MoveFeed(db, feed, newCat), {feed}, db.feeds[feed].category, newCat)
  {
    var oldCat := db.feeds[feed].category;
    var d0 := db.(feeds := db.feeds[feed := db.feeds[feed].(category := newCat)]);
    LosersAre(db, d0, feed, oldCat, newCat);
    var lose := Leaving(db, {feed}, oldCat, newCat);
    var d1 := UnsubscribePairs(d0, lose);
    GainersAre(db, d1, feed, oldCat, newCat);
    SoundWithCategory(db, d0);
    MoveRows(d0, lose, Joining(db, {feed}, newCat));
  }

  lemma MoveRows(db: Db, lose: set<Sub>, gain: set<Sub>)
    requires UnreadRowsSound(db)
    ensures ReadersChanged(db, SubscribePairs(UnsubscribePairs(db, lose), gain), lose, gain)
  {
    var d1 := UnsubscribePairs(db, lose);
    UnsubscribedInColumns(db, lose);
    SubscribedInColumns(d1, gain);
    ChangedAgain(db, d1, SubscribePairs(d1, gain), lose, {}, {}, gain);
    assert lose + {} == lose && {} + gain == gain;
  }

  lemma SoundWithCategory(db: Db, d: Db)
    requires UnreadRowsSound(db) && d.entries == db.entries && d.subs == db.subs && d.unread == db.unread && d.marks == db.marks
    ensures UnreadRowsSound(d)
  {
    forall k | k in d.unread ensures UnreadRowSound(d, k) {
      assert UnreadRowSound(db, k);
    }
  }

  lemma LosersAre(db: Db, d0: Db, feed: int, oldCat: Option<int>, newCat: Option<int>)
    requires d0.subs == db.subs && d0.followers == db.followers
    ensures Losers(d0, feed, oldCat, newCat) == Leaving(db, {feed}, oldCat, newCat)
  {
  }

  lemma GainersAre(db: Db, d1: Db, feed: int, oldCat: Option<int>, newCat: Option<int>)
    requires FollowersRead(db) && feed in db.feeds && db.feeds[feed].category == oldCat && d1.followers == db.followers
    requires d1.subs == db.subs - Leaving(db, {feed}, oldCat, newCat)
    ensures Gainers(d1, feed, oldCat, newCat) == Joining(db, {feed}, newCat)
  {
    forall s: Sub ensures s in Gainers(d1, feed, oldCat, newCat) <==> s in Joining(db, {feed}, newCat) {
      JoiningIs(db, feed, newCat, s.user, s.feed);
      if newCat.Some? {
        assert s.user in FollowersOf(d1, newCat.value) <==> Follow(newCat.value, s.user) in db.followers;
        assert s.feed == feed ==> s == Sub(s.user, feed);
      }
    }
  }

  lemma FirstOfAll(ids: seq<int>)
    requires ids != [] && Distinct(ids)
    ensures ids[0] !in Elements(ids[1..]) && Elements(ids) == {ids[0]} + Elements(ids[1..]) && Distinct(ids[1..])
  {
    assert ids == [ids[0]] + ids[1..];
  }

  /** The feeds of a category one after another. */
  lemma {:induction false} MoveAllInColumns(db: Db, ids: seq<int>, oldCat: Option<int>, newCat: Option<int>)
    requires Inv(db) && Distinct(ids) && (newCat.Some? ==> newCat.value in db.categories)
    requires forall i :: 0 <= i < |ids| ==> ids[i] in db.feeds && db.feeds[ids[i]].category == oldCat
    ensures Moved(db, MoveAll(db, ids, newCat), Elements(ids), oldCat, newCat)
    decreases |ids|
  {
    if ids == [] {
      MovedNone(db, oldCat, newCat);
    } else {
      var d := MoveFeed(db, ids[0], newCat);
      FirstOfAll(ids);
      MoveFeedInColumns(db, ids[0], newCat);
      MoveFeedKeeps(db, ids[0], newCat);
      forall i | 0 <= i < |ids[1..]| ensures ids[1..][i] in d.feeds && d.feeds[ids[1..][i]].category == oldCat {
        assert ids[1..][i] == ids[i + 1] != ids[0];
      }
      MoveAllInColumns(d, ids[1..], oldCat, newCat);
      MovedAgain(db, d, MoveAll(db, ids, newCat), ids[0], Elements(ids[1..]), oldCat, newCat);
    }
  }

  lemma MovedNone(db: Db, oldCat: Option<int>, newCat: Option<int>)
    ensures Moved(db, db, {}, oldCat, newCat)
  {
    assert Leaving(db, {}, oldCat, newCat) == {} && Joining(db, {}, newCat) == {};
  }

  lemma MovedAgain(db: Db, c: Db, d: Db, feed: int, others: set<int>, oldCat: Option<int>, newCat: Option<int>)
    requires Moved(db, c, {feed}, oldCat, newCat) && Moved(c, d, others, oldCat, newCat) && feed !in others
    ensures Moved(db, d, {feed} + others, oldCat, newCat)
  {
    var moved := {feed} + others;
    assert Leaving(db, {feed}, oldCat, newCat) + Leaving(c, others, oldCat, newCat) == Leaving(db, moved, oldCat, newCat);
    assert Joining(db, {feed}, newCat) + Joining(c, others, newCat) == Joining(db, moved, newCat);
    assert Joining(db, {feed}, newCat) !! Leaving(c, others, oldCat, newCat);
    ChangedAgain(db, c, d, Leaving(db, {feed}, oldCat, newCat), Joining(db, {feed}, newCat), Leaving(c, others, oldCat, newCat), Joining(c, others, newCat));
  }

  // ------------------------------------------- categories, new and changed feeds

  /** The feeds of a category a user does not read yet, and those the user reads. */
  function Missing(db: Db, user: int, category: int): set<Sub> {
    set f | f in db.feeds && db.feeds[f].category == Some(category) && Sub(user, f) !in db.subs :: Sub(user, f)
  }

  function Present(db: Db, user: int, category: int): set<Sub> {
    set f | f in db.feeds && db.feeds[f].category == Some(category) && Sub(user, f) in db.subs :: Sub(user, f)
  }

  lemma FollowInColumns(db: Db, user: int, category: int)
    requires category in db.categories
    ensures var d := FollowCategory(db, user, category).value;
            && d.followers == db.followers + {Follow(category, user)} && d.feeds == db.feeds && d.nextFeed == db.nextFeed
            && ReadersChanged(db, d, {}, Missing(db, user, category))
            && PairsOfUser(user, FeedsOf(db, category)) - db.subs == Missing(db, user, category)
  {
    var c := db.(followers := db.followers + {Follow(category, user)});
    assert FeedsOf(c, category) == FeedsOf(db, category);
    assert PairsOfUser(user, FeedsOf(db, category)) - db.subs == Missing(db, user, category);
    SubscribedInColumns(c, Missing(db, user, category));
  }

  lemma UnfollowInColumns(db: Db, user: int, category: int)
    requires Inv(db) && Follow(category, user) in db.followers
    ensures var d := UnfollowCategory(db, user, category).value;
            && d.followers == db.followers - {Follow(category, user)} && d.feeds == db.feeds && d.nextFeed == db.nextFeed
            && ReadersChanged(db, d, Present(db, user, category), {})
            && PairsOfUser(user, FeedsOf(db, category)) * db.subs == Present(db, user, category)
  {
    var c := db.(followers := db.followers - {Follow(category, user)});
    assert FeedsOf(c, category) == FeedsOf(db, category);
    assert PairsOfUser(user, FeedsOf(db, category)) * db.subs == Present(db, user, category);
    SoundWithCategory(db, c);
    UnsubscribedInColumns(c, Present(db, user, category));
  }

  /** The first readers of a feed: its creator, unless that is skipped, and the followers of its category. */
  function FirstReaders(db: Db, owner: int, category: Option<int>, skipOwner: bool): set<Sub> {
    (if skipOwner then {} else {Sub(owner, db.nextFeed)})
    + set p | p in db.followers && category == Some(p.category) :: Sub(p.user, db.nextFeed)
  }

  lemma CreateFeedInColumns(db: Db, owner: int, row: Feed, skipOwner: bool)
    requires Inv(db) && (row.category.Some? ==> row.category.value in db.categories)
    ensures var d := CreateFeed(db, owner, row, skipOwner).value;
            && d.feeds == db.feeds[db.nextFeed := Feed(row.category, row.mode, row.retentionDays, "")] && d.nextFeed == db.nextFeed + 1
            && d.followers == db.followers && ReadersChanged(db, d, {}, FirstReaders(db, owner, row.category, skipOwner))
  {
    var id := db.nextFeed;
    var owners: set<int> := if skipOwner then {} else {owner};
    var c := AddFeed(db, row, owners);
    NoEntriesYet(db, PairsOfFeed(owners, id), c);
    if row.category.Some? {
      var pairs := PairsOfFeed(FollowersOf(c, row.category.value), id) - c.subs;
      SubscribedInColumns(c, pairs);
      ChangedAgain(db, c, SubscribePairs(c, pairs), {}, PairsOfFeed(owners, id), {}, pairs);
      forall s: Sub ensures s in PairsOfFeed(owners, id) + pairs <==> s in FirstReaders(db, owner, row.category, skipOwner) {
        FirstReader(db, owner, row.category.value, skipOwner, c, s);
      }
      assert PairsOfFeed(owners, id) + pairs == FirstReaders(db, owner, row.category, skipOwner);
    } else {
      assert PairsOfFeed(owners, id) == FirstReaders(db, owner, row.category, skipOwner);
    }
  }

  lemma FirstReader(db: Db, owner: int, category: int, skipOwner: bool, c: Db, s: Sub)
    requires c.followers == db.followers && c.subs == db.subs + PairsOfFeed(if skipOwner then {} else {owner}, db.nextFeed)
    requires forall x :: x in db.subs ==> x.feed < db.nextFeed
    ensures s in PairsOfFeed(if skipOwner then {} else {owner}, db.nextFeed) + (PairsOfFeed(FollowersOf(c, category), db.nextFeed) - c.subs) <==>
            s in FirstReaders(db, owner, Some(category), skipOwner)
  {
    if s in FirstReaders(db, owner, Some(category), skipOwner) && !(s == Sub(owner, db.nextFeed) && !skipOwner) {
      var p :| p in db.followers && p.category == category && s == Sub(p.user, db.nextFeed);
      assert p.user in FollowersOf(c, category);
    }
  }

  /** A feed without entries has nothing to backfill. */
  lemma NoEntriesYet(db: Db, pairs: set<Sub>, c: Db)
    requires Inv(db) && (forall s :: s in pairs ==> s.feed == db.nextFeed)
    requires c == db.(feeds := c.feeds, nextFeed := c.nextFeed, subs := db.subs + pairs)
    ensures ReadersChanged(db, c, {}, pairs)
  {
    forall e | e in db.entries ensures db.entries[e].feed != db.nextFeed {
    }
  }

  lemma UpdateFeedInColumns(db: Db, id: int, newCat: Option<int>, mode: StoreMode, retentionDays: Option<int>, sameUrl: bool)
    requires Inv(db) && id in db.feeds && (newCat.Some? ==> newCat.value in db.categories)
    ensures var d := UpdateFeed(db, id, newCat, mode, retentionDays, sameUrl).value;
            && d.feeds == db.feeds[id := Feed(newCat, mode, retentionDays, if sameUrl then db.feeds[id].itemsHash else "")]
            && d.followers == db.followers && d.nextFeed == db.nextFeed
            && ReadersChanged(db, d, Leaving(db, {id}, db.feeds[id].category, newCat), Joining(db, {id}, newCat))
  {
    var c := Reconfigure(db, id, mode, retentionDays, sameUrl);
    ReconfiguredHolds(db, id, mode, retentionDays, sameUrl);
    MoveFeedInColumns(c, id, newCat);
    SameReaders(db, c, MoveFeed(c, id, newCat), id, newCat);
  }

  lemma ReconfiguredHolds(db: Db, id: int, mode: StoreMode, retentionDays: Option<int>, sameUrl: bool)
    requires Inv(db) && id in db.feeds
    ensures Inv(Reconfigure(db, id, mode, retentionDays, sameUrl))
  {
    var c := Reconfigure(db, id, mode, retentionDays, sameUrl);
    FeedRowKeeps(db, id, c.feeds[id]);
  }

  /** The other columns of a feed have no readers. */
  lemma SameReaders(db: Db, c: Db, d: Db, id: int, newCat: Option<int>)
    requires id in db.feeds && c == db.(feeds := c.feeds) && id in c.feeds && c.feeds[id].category == db.feeds[id].category
    requires Moved(c, d, {id}, c.feeds[id].category, newCat)
    ensures ReadersChanged(db, d, Leaving(db, {id}, db.feeds[id].category, newCat), Joining(db, {id}, newCat))
  {
    assert Leaving(c, {id}, db.feeds[id].category, newCat) == Leaving(db, {id}, db.feeds[id].category, newCat);
    assert Joining(c, {id}, newCat) == Joining(db, {id}, newCat);
  }
}
