/**
  PostgresStore: the transactions that are more than one statement, written
  statement by statement as the storage layer runs them, each against the
  table function of Catalog it amounts to.

  A query without ORDER BY may return its rows in any order and a LIMIT
  without ORDER BY any of them; nothing below depends on which.
 */
module Store {
  import opened Prelude
  import opened Text
  import opened Catalog
  import opened CatalogInvariant
  import opened CatalogRuns
  import opened EntryUpdates
  import opened SubscriptionColumns

  /** LIMIT: so many of the rows, whichever come first. */
  method AnyOf<T(==)>(rows: set<T>, limit: nat) returns (out: set<T>)
    ensures out <= rows && |out| == Min(|rows|, limit)
  {
    var all := Collect(rows);
    out := {};
    var i := 0;
    while i < |all| && i < limit
      invariant i <= |all| && i <= limit
      invariant out == Elements(all[..i]) && out <= rows && |out| == i
    {
      TakeNext(all, i);
      assert all[i] in Elements(all);
      out := out + {all[i]};
      i := i + 1;
    }
  }

  // -------------------------------------------------- one pair after another

  lemma BackfillKey(db: Db, pairs: set<Sub>, k: UserEntry)
    ensures k in BackfillKeys(db, pairs) <==>
            k.entry in db.entries && Sub(k.user, db.entries[k.entry].feed) in pairs && k.entry in Backfill(db, db.entries[k.entry].feed)
  {
  }

  lemma NextBackfillKeys(db: Db, d: Db, done: set<Sub>, p: Sub)
    requires d.entries == db.entries
    ensures BackfillKeys(db, done + {p}) == BackfillKeys(db, done) + BackfillKeys(d, {p})
  {
    SameBackfill(db, d, p.feed);
    forall k ensures k in BackfillKeys(db, done + {p}) <==> k in BackfillKeys(db, done) || k in BackfillKeys(d, {p}) {
      BackfillKey(db, done + {p}, k);
      BackfillKey(db, done, k);
      BackfillKey(d, {p}, k);
    }
  }

  lemma UnreadForMore(db: Db, d: Db, a: set<UserEntry>, b: set<UserEntry>, rows: map<UserEntry, Unread>)
    requires d.entries == db.entries
    ensures UnreadFor(d, b) + (UnreadFor(db, a) + rows) == UnreadFor(db, a + b) + rows
  {
  }

  lemma SubscribeNext(db: Db, done: set<Sub>, p: Sub)
    ensures SubscribePairs(SubscribePairs(db, done), {p}) == SubscribePairs(db, done + {p})
  {
    var d := SubscribePairs(db, done);
    NextBackfillKeys(db, d, done, p);
    UnreadForMore(db, d, BackfillKeys(db, done), BackfillKeys(d, {p}), db.unread);
    assert d.subs + {p} == db.subs + (done + {p});
  }

  lemma SameBackfill(db: Db, d: Db, feed: int)
    requires d.entries == db.entries
    ensures Backfill(d, feed) == Backfill(db, feed)
  {
    assert VisibleEntries(d, feed) == VisibleEntries(db, feed);
    forall e | e in VisibleEntries(db, feed)
      ensures Rank(d, VisibleEntries(d, feed), e) == Rank(db, VisibleEntries(db, feed), e)
    {
      assert (set x | x in VisibleEntries(d, feed) && Newer(d, x, e)) == (set x | x in VisibleEntries(db, feed) && Newer(db, x, e));
    }
  }

  function KeysFor(user: int, ids: set<int>): set<UserEntry> {
    Keys(ids, {user})
  }

  /** The backfill statement of subscribeTx. */
  function InsertBackfill(db: Db, user: int, feed: int): Db {
    db.(unread := UnreadFor(db, KeysFor(user, Backfill(db, feed))) + db.unread)
  }

  lemma OneBackfill(db: Db, p: Sub)
    ensures BackfillKeys(db, {p}) == KeysFor(p.user, Backfill(db, p.feed))
  {
  }

  lemma SubscribeStatements(db: Db, user: int, feed: int)
    ensures SubscribePairs(db, {Sub(user, feed)}) == InsertBackfill(db.(subs := db.subs + {Sub(user, feed)}), user, feed)
  {
    var d := db.(subs := db.subs + {Sub(user, feed)});
    SameBackfill(db, d, feed);
    OneBackfill(db, Sub(user, feed));
    var keys := KeysFor(user, Backfill(d, feed));
    assert UnreadFor(db, keys) == UnreadFor(d, keys);
  }

  /** The statements of unsubscribeTx after the subscription row is gone. */
  function DropUnread(db: Db, user: int, feed: int): Db {
    db.(unread := map k | k in db.unread && !(k.user == user && db.unread[k].feed == feed) :: db.unread[k])
  }

  function DropMarks(db: Db, user: int, feed: int): Db {
    db.(marks := map k | k in db.marks && !(k.user == user && k.entry in db.entries && db.entries[k.entry].feed == feed) :: db.marks[k])
  }

  function DropLabels(db: Db, user: int, feed: int): Db {
    db.(entryLabels := set l | l in db.entryLabels &&
          !(l.labelId in db.labelOwner && db.labelOwner[l.labelId] == user && l.entry in db.entries && db.entries[l.entry].feed == feed))
  }

  lemma UnsubscribeStatements(db: Db, user: int, feed: int)
    ensures UnsubscribePairs(db, {Sub(user, feed)})
         == DropLabels(DropMarks(DropUnread(db.(subs := db.subs - {Sub(user, feed)}), user, feed), user, feed), user, feed)
  {
  }

  lemma UnsubscribeNext(db: Db, done: set<Sub>, p: Sub)
    ensures UnsubscribePairs(UnsubscribePairs(db, done), {p}) == UnsubscribePairs(db, done + {p})
  {
  }

  lemma SubscribeNone(db: Db)
    ensures SubscribePairs(db, {}) == db
  {
  }

  lemma UnsubscribeNone(db: Db)
    ensures UnsubscribePairs(db, {}) == db
  {
  }

  // ------------------------------------------------------------- new entries

  /** The items a poll brings that FilterKnownEntryHashes did not report. */
  function Unknown(items: seq<Item>, known: set<string>): seq<Item>
    decreases |items|
  {
    if items == [] then []
    else Unknown(items[..|items| - 1], known) + (if items[|items| - 1].hash in known then [] else [items[|items| - 1]])
  }

  function HashSet(items: seq<Item>): set<string> {
    set x | x in items :: x.hash
  }

  /** One more row of the INSERT: it is kept unless its hash was there or came earlier. */
  lemma {:induction false} FreshNext(items: seq<Item>, x: Item, known: set<string>)
    ensures Fresh(items + [x], known) ==
            Fresh(items, known) + (if x.hash in known + HashSet(Fresh(items, known)) then [] else [x])
    decreases |items|
  {
    var all := items + [x];
    if items == [] {
      assert all[1..] == [];
    } else {
      assert all[1..] == items[1..] + [x];
      var k := if items[0].hash in known then known else known + {items[0].hash};
      FreshNext(items[1..], x, k);
      if items[0].hash !in known {
        assert HashSet(Fresh(items, known)) == {items[0].hash} + HashSet(Fresh(items[1..], k)) by {
          var rest := Fresh(items[1..], k);
          assert Fresh(items, known) == [items[0]] + rest;
          forall h ensures h in HashSet([items[0]] + rest) <==> h in {items[0].hash} + HashSet(rest) {
            if h in HashSet(rest) {
              var y :| y in rest && y.hash == h;
              assert y in [items[0]] + rest;
            }
          }
        }
      }
    }
  }

  /** Dropping the known items first changes nothing. */
  lemma {:induction false} FreshOfUnknown(items: seq<Item>, known: set<string>)
    ensures Fresh(Unknown(items, known), known) == Fresh(items, known)
    decreases |items|
  {
    if items != [] {
      var init, x := items[..|items| - 1], items[|items| - 1];
      assert items == init + [x];
      FreshOfUnknown(init, known);
      FreshNext(init, x, known);
      FreshNext(Unknown(init, known), x, known);
      assert Unknown(init, known) + [] == Unknown(init, known) && Fresh(init, known) + [] == Fresh(init, known);
    }
  }

  // -------------------------------------------------------- deletes in batches

  /** What the WHERE clause of a batched delete asks for. */
  datatype Rule = Collapse(params: CollapseParams) | RemovedEverywhere(before: int) | Hidden(before: int) | PastRetention(now: int)

  predicate Doomed(db: Db, rule: Rule, e: int) {
    match rule
    case Collapse(p) => Collapsible(db, p, e)
    case RemovedEverywhere(before) => RemovedByAll(db, e, before)
    case Hidden(before) => HiddenBefore(db, e, before)
    case PastRetention(now) => PastFeedRetention(db, e, now)
  }

  function AllDoomed(db: Db, rule: Rule): set<int> {
    set e | e in db.entries && Doomed(db, rule, e)
  }

  /** Deleting a batch does not change whether another row is to be deleted. */
  lemma DoomedStays(db: Db, batch: set<int>, rule: Rule, e: int)
    requires e !in batch
    ensures Doomed(DeleteEntries(db, batch, rule.Collapse?), rule, e) <==> Doomed(db, rule, e)
  {
  }

  lemma DeleteMore(db: Db, done: set<int>, batch: set<int>, keepHashes: bool)
    ensures DeleteEntries(DeleteEntries(db, done, keepHashes), batch, keepHashes) == DeleteEntries(db, done + batch, keepHashes)
  {
    var d := DeleteEntries(db, done, keepHashes);
    assert HashesOf(db, done) + HashesOf(d, batch) == HashesOf(db, done + batch) by {
      forall h ensures h in HashesOf(db, done) + HashesOf(d, batch) <==> h in HashesOf(db, done + batch) {
        if h in HashesOf(db, done + batch) {
          var e :| e in done + batch && e in db.entries && db.entries[e].hash != "" && h == Seen(db.entries[e].feed, db.entries[e].hash);
          assert e in done || (e in d.entries && d.entries[e] == db.entries[e]);
        }
      }
    }
  }

  lemma DeleteNone(db: Db, keepHashes: bool)
    ensures DeleteEntries(db, {}, keepHashes) == db
  {
  }

  lemma HashSetNext(s: seq<Item>, x: Item)
    ensures HashSet(s + [x]) == HashSet(s) + {x.hash}
  {
  }

  lemma NothingAsked(db: Db, user: int, status: Option<string>, starred: Option<bool>, now: int)
    ensures var d := Updated(db, user, {}, if status.Some? then Trim(status.value) else "", starred, now);
            d == db && Changed(db, d, user) == {}
  {
    NoStatusWrites(db, user, if status.Some? then Trim(status.value) else "", now);
    NoStarWrites(db, user, starred, now);
  }

  lemma NoStatusWrites(db: Db, user: int, status: string, now: int)
    ensures WithStatus(db, user, {}, status, now) == db
  {
    assert MarkRead(db, user, {}).unread == db.unread;
    if status == UNREAD {
      assert UnreadTargets(db, user, {}) == {};
      assert MarkUnread(db, user, {}).unread == db.unread;
    } else if status == REMOVED {
      RemoveNone(db, user, now);
    }
  }

  lemma RemoveNone(db: Db, user: int, now: int)
    ensures Remove(db, user, {}, now) == db
  {
  }

  lemma NoStarWrites(db: Db, user: int, starred: Option<bool>, now: int)
    ensures WithStar(db, user, {}, starred, now) == db
  {
    assert Star(db, user, {}, now) == db by { assert StarRows(db, user, {}, now) == map[]; }
    assert Unstar(db, user, {}) == db;
  }

  /** After some batches the doomed rows are the ones not deleted yet. */
  lemma RestIsDoomed(db: Db, done: set<int>, rule: Rule)
    ensures AllDoomed(DeleteEntries(db, done, rule.Collapse?), rule) == AllDoomed(db, rule) - done
  {
  }

  lemma BatchLeaves(all: set<int>, done: set<int>, batch: set<int>)
    requires done <= all && batch <= all - done
    ensures |done + batch| == |done| + |batch| && |all - (done + batch)| == |all - done| - |batch|
    ensures batch == all - done ==> done + batch == all
  {
  }

  /** What one cleanup pass is entitled to delete. */
  function Expired(db: Db, removedBefore: int, now: int): set<int> {
    AllDoomed(db, RemovedEverywhere(removedBefore)) + AllDoomed(db, Hidden(removedBefore)) + AllDoomed(db, PastRetention(now))
  }

  /** The three statements one after another delete the three sets of the start. */
  lemma ExpiredInTurn(db: Db, removedBefore: int, now: int)
    ensures var a := AllDoomed(db, RemovedEverywhere(removedBefore));
            var d1 := DeleteEntries(db, a, false);
            var b := AllDoomed(d1, Hidden(removedBefore));
            var d2 := DeleteEntries(d1, b, false);
            var c := AllDoomed(d2, PastRetention(now));
            DeleteEntries(d2, c, false) == DeleteEntries(db, Expired(db, removedBefore, now), false)
            && |a| + |b| + |c| == |Expired(db, removedBefore, now)|
  {
    var a := AllDoomed(db, RemovedEverywhere(removedBefore));
    var d1 := DeleteEntries(db, a, false);
    RestIsDoomed(db, a, Hidden(removedBefore));
    var b := AllDoomed(d1, Hidden(removedBefore));
    var d2 := DeleteEntries(d1, b, false);
    DeleteMore(db, a, b, false);
    RestIsDoomed(db, a + b, PastRetention(now));
    var c := AllDoomed(d2, PastRetention(now));
    DeleteMore(db, a + b, c, false);
    assert a + b + c == Expired(db, removedBefore, now);
  }

  lemma ExpiredSparesStars(db: Db, removedBefore: int, now: int)
    requires Inv(db)
    ensures forall k :: k in db.marks && db.marks[k].starred ==> k.entry in db.entries && k.entry !in Expired(db, removedBefore, now)
  {
  }

  // ------------------------------------------------- what goes, in the columns

  /** Entries went, each with its rows; nothing else changed but the dedup table. */
  ghost predicate OnlyEntriesGo(db: Db, d: Db) {
    && (forall e :: e in d.entries ==> e in db.entries && d.entries[e] == db.entries[e])
    && (forall k :: k in d.unread <==> k in db.unread && (k.entry in db.entries ==> k.entry in d.entries))
    && (forall k :: k in d.unread ==> d.unread[k] == db.unread[k])
    && (forall k :: k in d.marks <==> k in db.marks && (k.entry in db.entries ==> k.entry in d.entries))
    && (forall k :: k in d.marks ==> d.marks[k] == db.marks[k])
    && (forall l :: l in d.entryLabels <==> l in db.entryLabels && (l.entry in db.entries ==> l.entry in d.entries))
    && d.feeds == db.feeds && d.categories == db.categories && d.followers == db.followers && d.subs == db.subs
    && d.labelOwner == db.labelOwner && d.logs == db.logs && d.nextFeed == db.nextFeed && d.nextEntry == db.nextEntry
  }

  ghost predicate StarredInColumns(db: Db, e: int) {
    exists u :: UserEntry(e, u) in db.marks && db.marks[UserEntry(e, u)].starred
  }

  /** Every one of at least one reader removed the entry before the cutoff. */
  ghost predicate EveryReaderRemoved(db: Db, e: int, before: int)
    requires e in db.entries
  {
    && (exists u :: Sub(u, db.entries[e].feed) in db.subs)
    && (forall u :: Sub(u, db.entries[e].feed) in db.subs ==>
          UserEntry(e, u) in db.marks && db.marks[UserEntry(e, u)].removed && db.marks[UserEntry(e, u)].updatedAt < before)
  }

  /** Hidden before the cutoff; or without a star and older than its feed keeps, or removed by every reader. */
  ghost predicate Outlived(db: Db, e: int, removedBefore: int, now: int)
    requires e in db.entries
  {
    var row := db.entries[e];
    || (row.removedAt.Some? && row.removedAt.value < removedBefore)
    || (!StarredInColumns(db, e)
        && (EveryReaderRemoved(db, e, removedBefore)
            || (row.feed in db.feeds && db.feeds[row.feed].retentionDays.Some?
                && now - row.createdAt > db.feeds[row.feed].retentionDays.value * 86400)))
  }

  /** In the scope asked for, without a star, without a label unless those are included, and no delivery under way. */
  ghost predicate MayCollapse(db: Db, p: CollapseParams, e: int)
    requires e in db.entries
  {
    var f := db.entries[e].feed;
    && f in db.feeds
    && (p.feed.Some? ==> f == p.feed.value)
    && (p.user != 0 ==> Sub(p.user, f) in db.subs)
    && (p.user != 0 && p.category.Some? ==> db.feeds[f].category == Some(p.category.value) || (p.category.value == 0 && db.feeds[f].category == None))
    && (p.onlyHashFeeds ==> db.feeds[f].mode != Full)
    && !StarredInColumns(db, e)
    && (!p.includeLabelled ==> forall l :: EntryLabel(e, l) !in db.entryLabels)
    && (forall l :: l in db.logs && db.logs[l].entry == e ==> db.logs[l].status in {Sent, Dead})
  }

  lemma StarsInColumns(db: Db, e: int)
    ensures StarredByAnyone(db, e) <==> StarredInColumns(db, e)
  {
    if k :| k in db.marks && k.entry == e && db.marks[k].starred {
      assert k == UserEntry(e, k.user);
    }
  }

  lemma LabelsInColumns(db: Db, e: int)
    ensures Labelled(db, e) <==> exists l :: EntryLabel(e, l) in db.entryLabels
  {
    if l :| l in db.entryLabels && l.entry == e {
      assert l == EntryLabel(e, l.labelId);
    }
  }

  lemma ReadersInColumns(db: Db, e: int, before: int)
    requires e in db.entries
    ensures RemovedByAll(db, e, before) <==> EveryReaderRemoved(db, e, before) && !StarredInColumns(db, e)
  {
    StarsInColumns(db, e);
    if RemovedByAll(db, e, before) {
      var s :| s in db.subs && s.feed == db.entries[e].feed;
      assert s == Sub(s.user, db.entries[e].feed);
      forall u | Sub(u, db.entries[e].feed) in db.subs
        ensures UserEntry(e, u) in db.marks && db.marks[UserEntry(e, u)].removed && db.marks[UserEntry(e, u)].updatedAt < before
      {
        assert Sub(u, db.entries[e].feed).feed == db.entries[e].feed;
      }
    }
    if EveryReaderRemoved(db, e, before) {
      var u :| Sub(u, db.entries[e].feed) in db.subs;
      assert UserEntry(e, u).entry == e && Sub(u, db.entries[e].feed).feed == db.entries[e].feed;
      forall s | s in db.subs && s.feed == db.entries[e].feed
        ensures UserEntry(e, s.user) in db.marks && db.marks[UserEntry(e, s.user)].removed && db.marks[UserEntry(e, s.user)].updatedAt < before
      {
        assert s == Sub(s.user, db.entries[e].feed);
      }
    }
  }

  lemma ExpiredInColumns(db: Db, removedBefore: int, now: int)
    ensures forall e :: e in db.entries ==> (e in Expired(db, removedBefore, now) <==> Outlived(db, e, removedBefore, now))
  {
    forall e | e in db.entries ensures e in Expired(db, removedBefore, now) <==> Outlived(db, e, removedBefore, now) {
      StarsInColumns(db, e);
      ReadersInColumns(db, e, removedBefore);
      assert e in Expired(db, removedBefore, now) <==>
             RemovedByAll(db, e, removedBefore) || HiddenBefore(db, e, removedBefore) || PastFeedRetention(db, e, now);
    }
  }

  lemma CollapsibleInColumns(db: Db, p: CollapseParams, e: int)
    requires e in db.entries
    ensures Collapsible(db, p, e) <==> MayCollapse(db, p, e)
  {
    StarsInColumns(db, e);
    LabelsInColumns(db, e);
    assert Delivering(db, e) <==> !(forall l :: l in db.logs && db.logs[l].entry == e ==> db.logs[l].status in {Sent, Dead}) by {
      if l :| l in db.logs && db.logs[l].entry == e && db.logs[l].status !in {Sent, Dead} {
        assert Unsettled(db.logs[l]);
      }
    }
  }

  lemma DeletedRows(db: Db, doomed: set<int>, keepHashes: bool)
    requires doomed <= db.entries.Keys
    ensures var d := DeleteEntries(db, doomed, keepHashes);
            OnlyEntriesGo(db, d) && (forall e :: e in d.entries <==> e in db.entries && e !in doomed) && db.entries.Keys - d.entries.Keys == doomed
  {
  }

  ghost predicate HeldBy(db: Db, ids: set<int>, x: Seen) {
    exists e :: e in ids && e in db.entries && db.entries[e].feed == x.feed && db.entries[e].hash == x.hash
  }

  lemma DeletedHashes(db: Db, doomed: set<int>)
    ensures forall x :: x in DeleteEntries(db, doomed, true).dedup <==> x in db.dedup || (x.hash != "" && HeldBy(db, doomed, x))
  {
    forall x ensures x in HashesOf(db, doomed) <==> x.hash != "" && HeldBy(db, doomed, x) {
      if e :| x.hash != "" && e in db.entries && e in doomed && db.entries[e].feed == x.feed && db.entries[e].hash == x.hash {
        assert x == Seen(db.entries[e].feed, db.entries[e].hash);
      }
    }
  }

  lemma RetentionInColumns(db: Db, removedBefore: int, now: int)
    ensures var d := DeleteEntries(db, Expired(db, removedBefore, now), false);
            && OnlyEntriesGo(db, d) && d.dedup == db.dedup
            && (forall e :: e in db.entries ==> (e in d.entries <==> !Outlived(db, e, removedBefore, now)))
            && db.entries.Keys - d.entries.Keys == Expired(db, removedBefore, now)
  {
    ExpiredInColumns(db, removedBefore, now);
    DeletedRows(db, Expired(db, removedBefore, now), false);
  }

  lemma AllCollapsible(db: Db, p: CollapseParams)
    ensures forall e :: e in db.entries ==> (e in AllDoomed(db, Collapse(p)) <==> MayCollapse(db, p, e))
  {
    forall e | e in db.entries ensures e in AllDoomed(db, Collapse(p)) <==> MayCollapse(db, p, e) {
      CollapsibleInColumns(db, p, e);
    }
  }

  lemma CollapseInColumns(db: Db, p: CollapseParams)
    ensures var d := DeleteEntries(db, AllDoomed(db, Collapse(p)), true);
            && OnlyEntriesGo(db, d)
            && (forall e :: e in db.entries ==> (e in d.entries <==> !MayCollapse(db, p, e)))
            && (forall x :: x in d.dedup <==> x in db.dedup || (x.hash != "" && HeldBy(db, db.entries.Keys - d.entries.Keys, x)))
            && db.entries.Keys - d.entries.Keys == AllDoomed(db, Collapse(p))
  {
    AllCollapsible(db, p);
    DeletedRows(db, AllDoomed(db, Collapse(p)), true);
    DeletedHashes(db, AllDoomed(db, Collapse(p)));
  }

  lemma CategoryMoves(db: Db, ids: seq<int>, oldCat: Option<int>, newCat: Option<int>)
    requires Inv(db) && Distinct(ids) && (ids != [] && newCat.Some? ==> newCat.value in db.categories)
    requires forall i :: 0 <= i < |ids| ==> ids[i] in db.feeds && db.feeds[ids[i]].category == oldCat
    ensures Inv(MoveAll(db, ids, newCat)) && Moved(db, MoveAll(db, ids, newCat), Elements(ids), oldCat, newCat)
  {
    if ids == [] {
      MovedNone(db, oldCat, newCat);
      assert Elements(ids) == {};
    } else {
      MoveAllKeeps(db, ids, newCat);
      MoveAllInColumns(db, ids, oldCat, newCat);
    }
  }

  /** For an owner who reads the feed it is the ordinary removal of one entry. */
  lemma KeepPayloadIsRemove(db: Db, user: int, entry: int, now: int)
    requires entry in db.entries ==> Subscribed(db, user, entry)
    ensures RemoveKeepPayload(db, user, entry, now) == Remove(db, user, {entry}, now)
  {
    var targets := set e | e in {entry} && Subscribed(db, user, e);
    assert {entry} * db.entries.Keys == targets;
    assert Remove(db, user, {entry}, now) == RemoveFor(db, user, {entry}, targets, now);
  }

  lemma KeepPayloadRow(db: Db, user: int, entry: int, now: int)
    ensures var d := RemoveKeepPayload(db, user, entry, now);
            entry in d.entries ==> UserEntry(entry, user) !in d.unread && MarkedRemoved(d, user, entry)
  {
  }

  method AllHashed(items: seq<Item>) returns (ok: bool)
    ensures ok <==> !exists i :: 0 <= i < |items| && items[i].hash == ""
  {
    var i := 0;
    while i < |items|
      invariant i <= |items|
      invariant forall j :: 0 <= j < i ==> items[j].hash != ""
    {
      if items[i].hash == "" {
        return false;
      }
      i := i + 1;
    }
    ok := true;
  }

  method DropKnown(items: seq<Item>, known: set<string>) returns (unseen: seq<Item>)
    ensures unseen == Unknown(items, known)
  {
    unseen := [];
    var i := 0;
    while i < |items|
      invariant i <= |items| && unseen == Unknown(items[..i], known)
    {
      assert items[..i + 1][..i] == items[..i];
      if items[i].hash !in known {
        unseen := unseen + [items[i]];
      }
      i := i + 1;
    }
    assert items[..i] == items;
  }

  /** INSERT … ON CONFLICT DO NOTHING over the rows in order. */
  method FirstOfEach(items: seq<Item>, known: set<string>) returns (added: seq<Item>)
    ensures added == Fresh(items, known)
  {
    added := [];
    var taken := known;
    var i := 0;
    while i < |items|
      invariant i <= |items| && added == Fresh(items[..i], known) && taken == known + HashSet(added)
    {
      assert items[..i + 1] == items[..i] + [items[i]];
      FreshNext(items[..i], items[i], known);
      if items[i].hash !in taken {
        HashSetNext(added, items[i]);
        added := added + [items[i]];
        taken := taken + {items[i].hash};
      }
      i := i + 1;
    }
    assert items[..i] == items;
  }

  class PostgresStore {
    var db: Db

    constructor (start: Db)
      ensures db == start
    {
      db := start;
    }

    // ----------------------------------------------------- subscriptions.go

    method SubscribeTx(user: int, feed: int) returns (r: Result<(), Error>)
      modifies this
      ensures var want := SubscribeOne(old(db), user, feed);
              if want.Ok? then r == Ok(()) && db == want.value else r == Err(want.error) && db == old(db)
      ensures r == if Sub(user, feed) in old(db).subs then Err(AlreadySubscribed)
                   else if feed !in old(db).feeds then Err(InvalidReference) else Ok(())
      ensures r.Ok? ==>
                ReadersChanged(old(db), db, {}, {Sub(user, feed)}) && db.feeds == old(db).feeds && db.followers == old(db).followers
    {
      SubscribedInColumns(db, {Sub(user, feed)});
      if Sub(user, feed) in db.subs {
        return Err(AlreadySubscribed);
      }
      if feed !in db.feeds {
        return Err(InvalidReference);
      }
      SubscribeStatements(db, user, feed);
      db := db.(subs := db.subs + {Sub(user, feed)});
      db := InsertBackfill(db, user, feed);
      r := Ok(());
    }

    method UnsubscribeTx(user: int, feed: int) returns (r: Result<(), Error>)
      modifies this
      ensures var want := UnsubscribeOne(old(db), user, feed);
              if want.Ok? then r == Ok(()) && db == want.value else r == Err(want.error) && db == old(db)
      ensures r == if Sub(user, feed) in old(db).subs then Ok(()) else Err(NotFound)
      ensures r.Ok? && UnreadRowsSound(old(db)) ==>
                ReadersChanged(old(db), db, {Sub(user, feed)}, {}) && db.feeds == old(db).feeds && db.followers == old(db).followers
    {
      if UnreadRowsSound(db) {
        UnsubscribedInColumns(db, {Sub(user, feed)});
      }
      if Sub(user, feed) !in db.subs {
        return Err(NotFound);
      }
      UnsubscribeStatements(db, user, feed);
      db := db.(subs := db.subs - {Sub(user, feed)});
      db := DropUnread(db, user, feed);
      db := DropMarks(db, user, feed);
      db := DropLabels(db, user, feed);
      r := Ok(());
    }

    /** Unsubscribe: refused for a feed that is read through a followed category. */
    method Unsubscribe(user: int, feed: int) returns (r: Result<(), Error>)
      requires Inv(db)
      modifies this
      ensures Inv(db)
      ensures var want := Catalog.Unsubscribe(old(db), user, feed);
              if want.Ok? then r == Ok(()) && db == want.value else r == Err(want.error) && db == old(db)
      ensures r == Err(FollowsCategory) <==> exists c :: feed in old(db).feeds && old(db).feeds[feed].category == Some(c) && Follow(c, user) in old(db).followers
      ensures r == Err(NotFound) ==> Sub(user, feed) !in old(db).subs
      ensures r.Ok? ==>
                ReadersChanged(old(db), db, {Sub(user, feed)}, {}) && db.feeds == old(db).feeds && db.followers == old(db).followers
    {
      UnsubscribeKeeps(db, user, feed);
      if feed in db.feeds && db.feeds[feed].category.Some? && Follow(db.feeds[feed].category.value, user) in db.followers {
        return Err(FollowsCategory);
      }
      r := UnsubscribeTx(user, feed);
    }

    // -------------------------------------------------------- categories.go

    method SubscribeCategoryFeedsTx(user: int, category: int) returns (n: nat)
      modifies this
      ensures var pairs := PairsOfUser(user, FeedsOf(old(db), category)) - old(db).subs;
              db == SubscribePairs(old(db), pairs) && n == |pairs|
    {
      var pairs := PairsOfUser(user, FeedsOf(db, category)) - db.subs;
      var rows := Collect(pairs);
      SubscribeNone(db);
      var i := 0;
      while i < |rows|
        invariant i <= |rows|
        invariant db == SubscribePairs(old(db), Elements(rows[..i]))
      {
        TakeNext(rows, i);
        assert rows[i] in Elements(rows);
        var r := SubscribeTx(user, rows[i].feed);
        SubscribeNext(old(db), Elements(rows[..i]), rows[i]);
        i := i + 1;
      }
      assert rows[..i] == rows;
      n := |rows|;
    }

    method FollowCategory(user: int, category: int) returns (r: Result<nat, Error>)
      requires Inv(db)
      modifies this
      ensures Inv(db)
      ensures var want := Catalog.FollowCategory(old(db), user, category);
              if want.Ok? then db == want.value && r == Ok(|PairsOfUser(user, FeedsOf(old(db), category)) - old(db).subs|)
              else db == old(db) && r == Err(want.error)
      ensures r == if category in old(db).categories then Ok(|Missing(old(db), user, category)|) else Err(NotFound)
      ensures r.Ok? ==>
                && ReadersChanged(old(db), db, {}, Missing(old(db), user, category))
                && db.followers == old(db).followers + {Follow(category, user)} && db.feeds == old(db).feeds
    {
      if category in db.categories {
        FollowInColumns(db, user, category);
      }
      FollowCategoryKeeps(db, user, category);
      if category in db.categories {
        db := db.(followers := db.followers + {Follow(category, user)});
      } else {
        return Err(NotFound);
      }
      assert FeedsOf(db, category) == FeedsOf(old(db), category);
      var n := SubscribeCategoryFeedsTx(user, category);
      r := Ok(n);
    }

    method UnfollowCategory(user: int, category: int) returns (r: Result<nat, Error>)
      requires Inv(db)
      modifies this
      ensures Inv(db)
      ensures var want := Catalog.UnfollowCategory(old(db), user, category);
              if want.Ok? then db == want.value && r == Ok(|PairsOfUser(user, FeedsOf(old(db), category)) * old(db).subs|)
              else db == old(db) && r == Err(want.error)
      ensures r == if Follow(category, user) in old(db).followers then Ok(|Present(old(db), user, category)|) else Err(NotFound)
      ensures r.Ok? ==>
                && ReadersChanged(old(db), db, Present(old(db), user, category), {})
                && db.followers == old(db).followers - {Follow(category, user)} && db.feeds == old(db).feeds
    {
      UnfollowCategoryKeeps(db, user, category);
      if Follow(category, user) !in db.followers {
        return Err(NotFound);
      }
      db := db.(followers := db.followers - {Follow(category, user)});
      ghost var start := db;
      assert FeedsOf(db, category) == FeedsOf(old(db), category);
      var rows := Collect(PairsOfUser(user, FeedsOf(db, category)) * db.subs);
      UnsubscribeNone(db);
      var i := 0;
      while i < |rows|
        invariant i <= |rows|
        invariant db == UnsubscribePairs(start, Elements(rows[..i]))
      {
        TakeNext(rows, i);
        assert rows[i] in Elements(rows);
        var u := UnsubscribeTx(user, rows[i].feed);
        UnsubscribeNext(start, Elements(rows[..i]), rows[i]);
        i := i + 1;
      }
      assert rows[..i] == rows;
      UnfollowInColumns(old(db), user, category);
      r := Ok(|rows|);
    }

    method SubscribeFollowersTx(feed: int, category: int)
      requires feed in db.feeds
      modifies this
      ensures db == SubscribePairs(old(db), PairsOfFeed(FollowersOf(old(db), category), feed) - old(db).subs)
    {
      var rows := Collect(PairsOfFeed(FollowersOf(db, category), feed) - db.subs);
      SubscribeNone(db);
      var i := 0;
      while i < |rows|
        invariant i <= |rows|
        invariant db == SubscribePairs(old(db), Elements(rows[..i]))
      {
        TakeNext(rows, i);
        assert rows[i] in Elements(rows);
        var r := SubscribeTx(rows[i].user, feed);
        SubscribeNext(old(db), Elements(rows[..i]), rows[i]);
        i := i + 1;
      }
      assert rows[..i] == rows;
    }

    method SyncCategoryFollowersTx(feed: int, oldCat: Option<int>, newCat: Option<int>)
      requires feed in db.feeds
      modifies this
      ensures var d := UnsubscribePairs(old(db), Losers(old(db), feed, oldCat, newCat));
              db == SubscribePairs(d, Gainers(d, feed, oldCat, newCat))
    {
      UnsubscribeNone(db);
      if oldCat.Some? && (newCat.None? || oldCat.value != newCat.value) {
        var rows := Collect(Losers(db, feed, oldCat, newCat));
        var i := 0;
        while i < |rows|
          invariant i <= |rows|
          invariant db == UnsubscribePairs(old(db), Elements(rows[..i]))
        {
          TakeNext(rows, i);
          assert rows[i] in Elements(rows);
          var r := UnsubscribeTx(rows[i].user, feed);
          UnsubscribeNext(old(db), Elements(rows[..i]), rows[i]);
          i := i + 1;
        }
        assert rows[..i] == rows;
      }
      SubscribeNone(db);
      if newCat.Some? && (oldCat.None? || oldCat.value != newCat.value) {
        SubscribeFollowersTx(feed, newCat.value);
      }
    }

    // ---------------------------------------- postgres_crud.go and feed_bulk.go

    /** A new category_id and the followers brought in line with it. */
    method MoveTx(feed: int, oldCat: Option<int>, newCat: Option<int>)
      requires feed in db.feeds && db.feeds[feed].category == oldCat
      modifies this
      ensures db == MoveFeed(old(db), feed, newCat)
    {
      db := db.(feeds := db.feeds[feed := db.feeds[feed].(category := newCat)]);
      SyncCategoryFollowersTx(feed, oldCat, newCat);
    }

    method CreateFeed(owner: int, row: Feed, skipOwner: bool) returns (r: Result<int, Error>)
      requires Inv(db)
      modifies this
      ensures Inv(db)
      ensures var want := Catalog.CreateFeed(old(db), owner, row, skipOwner);
              if want.Ok? then db == want.value && r == Ok(old(db).nextFeed) else db == old(db) && r == Err(want.error)
      ensures r == if row.category.Some? && row.category.value !in old(db).categories then Err(InvalidReference) else Ok(old(db).nextFeed)
      ensures r.Ok? ==>
                && db.feeds == old(db).feeds[r.value := Feed(row.category, row.mode, row.retentionDays, "")]
                && db.nextFeed == r.value + 1 && db.followers == old(db).followers
                && ReadersChanged(old(db), db, {}, FirstReaders(old(db), owner, row.category, skipOwner))
    {
      if !(row.category.Some? && row.category.value !in db.categories) {
        CreateFeedInColumns(db, owner, row, skipOwner);
      }
      CreateFeedKeeps(db, owner, row, skipOwner);
      if row.category.Some? && row.category.value !in db.categories {
        return Err(InvalidReference);
      }
      var id := db.nextFeed;
      db := AddFeed(db, row, {});
      if !skipOwner {
        db := db.(subs := db.subs + {Sub(owner, id)});
      }
      assert db == AddFeed(old(db), row, if skipOwner then {} else {owner}) by {
        assert PairsOfFeed({owner}, id) == {Sub(owner, id)};
      }
      if row.category.Some? {
        SubscribeFollowersTx(id, row.category.value);
      }
      r := Ok(id);
    }

    method UpdateFeed(id: int, newCat: Option<int>, mode: StoreMode, retentionDays: Option<int>, sameUrl: bool) returns (r: Result<(), Error>)
      requires Inv(db)
      modifies this
      ensures Inv(db)
      ensures var want := Catalog.UpdateFeed(old(db), id, newCat, mode, retentionDays, sameUrl);
              if want.Ok? then db == want.value && r == Ok(()) else db == old(db) && r == Err(want.error)
      ensures r == if id !in old(db).feeds then Err(NotFound)
                   else if newCat.Some? && newCat.value !in old(db).categories then Err(InvalidReference) else Ok(())
      ensures r.Ok? ==>
                && db.feeds == old(db).feeds[id := Feed(newCat, mode, retentionDays, if sameUrl then old(db).feeds[id].itemsHash else "")]
                && db.followers == old(db).followers && db.nextFeed == old(db).nextFeed
                && ReadersChanged(old(db), db, Leaving(old(db), {id}, old(db).feeds[id].category, newCat), Joining(old(db), {id}, newCat))
    {
      if id in db.feeds && !(newCat.Some? && newCat.value !in db.categories) {
        UpdateFeedInColumns(db, id, newCat, mode, retentionDays, sameUrl);
      }
      UpdateFeedKeeps(db, id, newCat, mode, retentionDays, sameUrl);
      if id !in db.feeds {
        return Err(NotFound);
      }
      if newCat.Some? && newCat.value !in db.categories {
        return Err(InvalidReference);
      }
      var oldCat := db.feeds[id].category;
      db := Reconfigure(db, id, mode, retentionDays, sameUrl);
      MoveTx(id, oldCat, newCat);
      r := Ok(());
    }

    /** The move branch of BulkUpdateFeedsByCategory; 0 stands for no category on either side. */
    method MoveCategoryFeeds(category: int, target: Option<int>) returns (r: Result<seq<int>, Error>)
      requires Inv(db) && 0 !in db.categories
      modifies this
      ensures Inv(db)
      ensures r.Err? <==>
                var moveTo := if target == Some(0) then None else target;
                && moveTo.Some? && moveTo != Some(category) && moveTo.value !in old(db).categories
                && exists f :: f in old(db).feeds && old(db).feeds[f].category == if category > 0 then Some(category) else None
      ensures r.Err? ==> r.error == InvalidReference && db == old(db)
      ensures r.Ok? ==>
                var oldCat := if category > 0 then Some(category) else None;
                var moveTo := if target == Some(0) then None else target;
                && Distinct(r.value) && (forall f :: f in r.value <==> f in old(db).feeds && old(db).feeds[f].category == oldCat)
                && if moveTo == Some(category) then db == old(db) else Moved(old(db), db, Elements(r.value), oldCat, moveTo)
    {
      var oldCat := if category > 0 then Some(category) else None;
      var moveTo := if target == Some(0) then None else target;
      var ids := Collect(set f | f in db.feeds && db.feeds[f].category == oldCat);
      assert forall i :: 0 <= i < |ids| ==> ids[i] in Elements(ids);
      assert forall f :: f in ids <==> f in Elements(ids);
      if moveTo == Some(category) {
        return Ok(ids);
      }
      if |ids| > 0 && moveTo.Some? && moveTo.value !in db.categories {
        var f := ids[0];
        assert f in db.feeds && db.feeds[f].category == oldCat;
        return Err(InvalidReference);
      }
      CategoryMoves(db, ids, oldCat, moveTo);
      MoveEachTx(ids, oldCat, moveTo);
      r := Ok(ids);
    }

    method MoveEachTx(ids: seq<int>, oldCat: Option<int>, newCat: Option<int>)
      requires Distinct(ids) && forall i :: 0 <= i < |ids| ==> ids[i] in db.feeds && db.feeds[ids[i]].category == oldCat
      modifies this
      ensures db == MoveAll(old(db), ids, newCat)
    {
      assert ids[0..] == ids;
      var i := 0;
      while i < |ids|
        invariant i <= |ids|
        invariant db.feeds.Keys == old(db).feeds.Keys
        invariant forall j :: i <= j < |ids| ==> db.feeds[ids[j]].category == oldCat
        invariant MoveAll(db, ids[i..], newCat) == MoveAll(old(db), ids, newCat)
      {
        ghost var was := db;
        assert ids[i..][0] == ids[i] && ids[i..][1..] == ids[i + 1..];
        MoveTx(ids[i], oldCat, newCat);
        assert db.feeds == was.feeds[ids[i] := was.feeds[ids[i]].(category := newCat)];
        i := i + 1;
      }
    }

    // ----------------------------------------------------------- entry_bulk.go

    /** BulkUpdateEntries: the count is the number of entries that look different to the user afterwards. */
    method BulkUpdateEntries(user: int, ids: set<int>, status: Option<string>, starred: Option<bool>, now: int) returns (r: Result<nat, Error>)
      requires Inv(db)
      modifies this
      ensures Inv(db)
      ensures r.Err? <==> ids != {} && if status.None? then starred.None? else Trim(status.value) != READ && Trim(status.value) != UNREAD
      ensures r.Err? ==> db == old(db)
      ensures r.Ok? ==> db == Updated(old(db), user, ids, if status.Some? then Trim(status.value) else "", starred, now)
      ensures r.Ok? ==> r.value == |Changed(old(db), db, user)|
    {
      if ids == {} {
        NothingAsked(db, user, status, starred, now);
        return Ok(0);
      }
      if status.None? && starred.None? {
        return Err(NothingToUpdate);
      }
      var st := if status.Some? then Trim(status.value) else "";
      if status.Some? && st != READ && st != UNREAD {
        return Err(InvalidStatus);
      }
      StatusKeeps(db, user, ids, st, now);
      StarWriteKeeps(WithStatus(db, user, ids, st, now), user, ids, starred, now);
      OneSnapshot(db, user, ids, st, starred, now);
      ReturnedIsChanged(db, user, ids, st, starred, now);
      var returned := StatusReturns(db, user, ids, st) + StarReturns(db, user, ids, starred);
      db := WithStar(db, user, ids, starred, now).(unread := WithStatus(db, user, ids, st, now).unread);
      r := Ok(|returned|);
    }

    /** MarkEntriesRemoved counts the rows it writes: hidden entries too, and none that the user had removed before. */
    method MarkEntriesRemoved(user: int, ids: set<int>, now: int) returns (n: nat)
      requires Inv(db)
      modifies this
      ensures Inv(db) && db == Remove(old(db), user, ids, now)
      ensures n == |set e | e in ids && Subscribed(old(db), user, e) && !MarkedRemoved(old(db), user, e)|
      ensures db.entries == old(db).entries && forall k :: k in db.unread <==> k in old(db).unread && !(k.user == user && k.entry in ids)
      ensures forall k :: k in db.marks <==>
                k in old(db).marks || (k.user == user && k.entry in ids && k.entry in db.entries && Sub(user, db.entries[k.entry].feed) in old(db).subs)
      ensures forall k :: k in db.marks ==>
                if k.user == user && k.entry in ids && !(k in old(db).marks && old(db).marks[k].removed)
                then db.marks[k].removed && db.marks[k].updatedAt == now && (db.marks[k].starred <==> k in old(db).marks && old(db).marks[k].starred)
                else db.marks[k] == old(db).marks[k]
    {
      if ids == {} {
        RemoveNone(db, user, now);
        return 0;
      }
      RemoveKeeps(db, user, ids, now);
      n := |set e | e in ids && Subscribed(db, user, e) && !MarkedRemoved(db, user, e)|;
      db := Remove(db, user, ids, now);
    }

    /** UpdateEntry: one entry of one feed, seen through the user's subscription. */
    method UpdateEntry(user: int, feed: int, entry: int, status: Option<string>, starred: Option<bool>, now: int) returns (r: Result<View, Error>)
      requires Inv(db)
      modifies this
      ensures Inv(db)
      ensures r.Err? ==> db == old(db)
      ensures r.Err? && r.error == NothingToUpdate <==> status.None? && starred.None?
      ensures r.Err? && r.error == InvalidStatus <==> status.Some? && Trim(status.value) !in {READ, UNREAD, REMOVED}
      ensures r.Ok? ==> entry in old(db).entries && old(db).entries[entry].feed == feed && Sub(user, feed) in old(db).subs
      ensures r.Ok? ==> db == Updated(old(db), user, {entry}, if status.Some? then Trim(status.value) else "", starred, now)
      ensures r.Ok? ==>
                var was := Shown(old(db), user, entry);
                var st := if status.Some? then Asked(Trim(status.value), was.status) else was.status;
                r.value == Shown(db, user, entry)
                && r.value == if was.status.IsRemoved? then was else if st.IsRemoved? then View(st, was.starred)
                              else View(st, if starred.Some? then starred.value else was.starred)
    {
      if status.None? && starred.None? {
        return Err(NothingToUpdate);
      }
      var st := if status.Some? then Trim(status.value) else "";
      if status.Some? && st != READ && st != UNREAD && st != REMOVED {
        return Err(InvalidStatus);
      }
      if !(entry in db.entries && db.entries[entry].feed == feed && Sub(user, feed) in db.subs) {
        return Err(NotFound);
      }
      UpdateMeaning(db, user, {entry}, st, starred, now, user, entry);
      db := WithStatus(db, user, {entry}, st, now);
      db := WithStar(db, user, {entry}, starred, now);
      r := Ok(Shown(db, user, entry));
    }

    // -------------------------------------------- entry.go and entry_dedup.go

    method CreateEntries(feed: int, items: seq<Item>, relay: bool, now: int) returns (r: Result<nat, Error>)
      requires Inv(db)
      modifies this
      ensures Inv(db)
      ensures var want := Catalog.CreateEntries(old(db), feed, items, relay, now);
              if want.Ok? then db == want.value && r == Ok(|Fresh(items, Known(old(db), feed))|)
              else db == old(db) && r == Err(want.error)
    {
      CreateEntriesKeeps(db, feed, items, relay, now);
      var complete := AllHashed(items);
      if !complete {
        return Err(HashRequired);
      }
      var unseen := DropKnown(items, Known(db, feed));
      var added := FirstOfEach(unseen, Known(db, feed));
      FreshOfUnknown(items, Known(db, feed));
      if |added| == 0 {
        return Ok(0);
      }
      if feed !in db.feeds {
        return Err(NotFound);
      }
      db := InsertRows(db, feed, added, relay, now);
      r := Ok(|added|);
    }

    method RecordFeedEntryDedup(feed: int, hashes: seq<string>) returns (r: Result<(), Error>)
      modifies this
      ensures r.Err? ==> db == old(db)
      ensures r.Ok? ==> db == RecordDedup(old(db), feed, Elements(hashes))
      ensures r.Err? <==> hashes != [] && ((exists h :: h in hashes && Blank(h)) || feed !in old(db).feeds)
      ensures r == Err(HashRequired) <==> exists h :: h in hashes && Blank(h)
      ensures r.Err? ==> r.error in {HashRequired, NotFound}
    {
      if |hashes| == 0 {
        assert RecordDedup(db, feed, {}) == db;
        return Ok(());
      }
      var i := 0;
      while i < |hashes|
        invariant i <= |hashes| && db == old(db)
        invariant forall j :: 0 <= j < i ==> !Blank(hashes[j])
      {
        if Blank(hashes[i]) {
          assert hashes[i] in hashes;
          return Err(HashRequired);
        }
        i := i + 1;
      }
      if feed !in db.feeds {
        return Err(NotFound);
      }
      db := RecordDedup(db, feed, set h | h in hashes);
      r := Ok(());
    }

    /** StoreFilteredPoll: withTx puts everything back when the second half fails. */
    method StoreFilteredPoll(feed: int, wanted: seq<Item>, hashOnly: seq<string>, relay: bool, now: int) returns (r: Result<nat, Error>)
      requires Inv(db)
      modifies this
      ensures Inv(db)
      ensures var want := StorePoll(old(db), feed, wanted, Elements(hashOnly), relay, now);
              if want.Ok? then db == want.value && r == Ok(|Fresh(wanted, Known(old(db), feed))|)
              else db == old(db) && r == Err(want.error)
    {
      StorePollKeeps(db, feed, wanted, Elements(hashOnly), relay, now);
      var start := db;
      r := CreateEntries(feed, wanted, relay, now);
      if r.Err? {
        return;
      }
      assert db.feeds == start.feeds;
      assert hashOnly != [] <==> Elements(hashOnly) != {} by { if hashOnly != [] { assert hashOnly[0] in Elements(hashOnly); } }
      assert forall h :: h in hashOnly <==> h in Elements(hashOnly);
      var d := RecordFeedEntryDedup(feed, hashOnly);
      if d.Err? {
        db := start;
        return Err(d.error);
      }
    }

    // ------------------------------------------------------ webhook_delivery.go

    /** StripEntryPayloadAfterWebhook: the row and its hash stay, nobody sees the entry any more. */
    method StripEntryPayloadAfterWebhook(entry: int, now: int) returns (r: Result<(), Error>)
      requires Inv(db)
      modifies this
      ensures Inv(db) && db == Strip(old(db), entry, now)
      ensures r.Err? <==> entry !in old(db).entries
      ensures r.Err? ==> db == old(db)
      ensures r.Ok? ==>
                var was := old(db).entries[entry];
                && db.entries == old(db).entries[entry := was.(removedAt := if was.removedAt.Some? then was.removedAt else Some(now))]
                && (forall k :: k in db.unread <==> k in old(db).unread && k.entry != entry)
                && (forall k :: k in db.marks <==> k in old(db).marks && k.entry != entry)
                && (forall k :: k in db.unread ==> db.unread[k] == old(db).unread[k])
                && (forall k :: k in db.marks ==> db.marks[k] == old(db).marks[k])
                && db.dedup == old(db).dedup + {Seen(was.feed, was.hash)}
      ensures r.Ok? ==> forall u :: StatusOf(db, u, entry) == IsRemoved && !Starred(db, u, entry)
    {
      StripKeeps(db, entry, now);
      r := if entry in db.entries then Ok(()) else Err(NotFound);
      db := Strip(db, entry, now);
    }

    /** DeleteRelayEntryAfterWebhook: false while another delivery holds the entry. */
    method DeleteRelayEntryAfterWebhook(entry: int, log: int) returns (deleted: bool)
      requires Inv(db)
      modifies this
      ensures Inv(db) && db == DeleteRelayEntry(old(db), entry, log)
      ensures deleted <==> entry in old(db).entries
                           && forall l :: l in old(db).logs && l != log && old(db).logs[l].entry == entry ==> old(db).logs[l].status in {Sent, Dead}
      ensures deleted ==>
                && OnlyEntriesGo(old(db), db) && db.entries.Keys == old(db).entries.Keys - {entry}
                && db.dedup == old(db).dedup + {Seen(old(db).entries[entry].feed, old(db).entries[entry].hash)}
      ensures !deleted ==> db.entries == old(db).entries && db.dedup == old(db).dedup
    {
      DeleteEntriesKeeps(db, {entry}, true);
      deleted := entry in db.entries && !HeldByOther(db, entry, log);
      if deleted {
        DeletedRows(db, {entry}, true);
        assert HashesOf(db, {entry}) == {Seen(db.entries[entry].feed, db.entries[entry].hash)};
      } else if entry !in db.entries {
        assert HashesOf(db, {entry}) == {};
      } else {
        var l :| l in db.logs && l != log && db.logs[l].entry == entry && Unsettled(db.logs[l]);
      }
      if !HeldByOther(db, entry, log) {
        db := DeleteEntries(db, {entry}, true);
      }
    }

    /** DropUndeliveredRelayEntries: the entries go, what the feeds know stays. */
    method DropUndeliveredRelayEntries(ids: set<int>) returns (dropped: nat)
      requires Inv(db)
      modifies this
      ensures Inv(db) && db == DropUndelivered(old(db), ids)
      ensures OnlyEntriesGo(old(db), db) && dropped == |old(db).entries.Keys - db.entries.Keys|
      ensures forall e :: e in old(db).entries ==>
                (e in db.entries <==> e !in ids || exists l :: l in old(db).logs && old(db).logs[l].entry == e)
      ensures forall x :: x in db.dedup <==>
                x in old(db).dedup || (x.hash != "" && HeldBy(old(db), old(db).entries.Keys - db.entries.Keys, x))
      ensures forall f :: Known(old(db), f) <= Known(db, f)
    {
      var gone := set e | e in ids && e in db.entries && !HasDelivery(db, e);
      DeletedRows(db, gone, true);
      DeletedHashes(db, gone);
      DeleteEntriesKeeps(db, gone, true);
      forall f ensures Known(db, f) <= Known(DeleteEntries(db, gone, true), f) {
        DeleteKeepsKnown(db, gone, f);
      }
      dropped := |gone|;
      db := DeleteEntries(db, gone, true);
    }

    /** MarkEntryRemovedKeepPayload, whoever it is called for: an ordinary removal for a reader, a stray row for anybody else. */
    method MarkEntryRemovedKeepPayload(user: int, entry: int, now: int)
      requires Inv(db)
      modifies this
      ensures db == RemoveKeepPayload(old(db), user, entry, now)
      ensures Inv(db) <==> entry !in old(db).entries || Subscribed(old(db), user, entry)
      ensures Inv(db) ==> db == Remove(old(db), user, {entry}, now)
      ensures entry in db.entries ==> UserEntry(entry, user) !in db.unread && MarkedRemoved(db, user, entry)
    {
      RemoveKeepPayloadKeepsIff(db, user, entry, now);
      if entry !in db.entries || Subscribed(db, user, entry) {
        KeepPayloadIsRemove(db, user, entry, now);
      }
      KeepPayloadRow(db, user, entry, now);
      db := RemoveKeepPayload(db, user, entry, now);
    }

    // ---------------------------------------------------------- batched deletes

    /** One statement with its LIMIT. */
    method DeleteBatch(rule: Rule, batchSize: nat) returns (n: nat, ghost batch: set<int>)
      requires Inv(db)
      modifies this
      ensures Inv(db) && db == DeleteEntries(old(db), batch, rule.Collapse?)
      ensures batch <= AllDoomed(old(db), rule) && n == |batch| <= batchSize
      ensures n < batchSize ==> batch == AllDoomed(old(db), rule)
    {
      var rows := AllDoomed(db, rule);
      var picked := AnyOf(rows, batchSize);
      SubsetSize(picked, rows);
      DeleteEntriesKeeps(db, picked, rule.Collapse?);
      db := DeleteEntries(db, picked, rule.Collapse?);
      n, batch := |picked|, picked;
    }

    /** CollapseEntriesToHashes and deleteInBatches: batch after batch until one comes back short. */
    method DeleteInBatches(rule: Rule, batchSize: nat) returns (total: nat)
      requires Inv(db) && batchSize > 0
      modifies this
      ensures Inv(db)
      ensures db == DeleteEntries(old(db), AllDoomed(old(db), rule), rule.Collapse?)
      ensures total == |AllDoomed(old(db), rule)|
    {
      ghost var done: set<int> := {};
      DeleteNone(db, rule.Collapse?);
      total := 0;
      while true
        invariant Inv(db) && done <= AllDoomed(old(db), rule) && total == |done|
        invariant db == DeleteEntries(old(db), done, rule.Collapse?)
        decreases |AllDoomed(old(db), rule) - done|
      {
        RestIsDoomed(old(db), done, rule);
        ghost var batch;
        var n;
        n, batch := DeleteBatch(rule, batchSize);
        DeleteMore(old(db), done, batch, rule.Collapse?);
        BatchLeaves(AllDoomed(old(db), rule), done, batch);
        total := total + n;
        done := done + batch;
        if n < batchSize {
          return;
        }
      }
    }

    const COLLAPSE_ENTRIES_BATCH_SIZE: nat := 5000
    const DELETE_BATCH_SIZE: nat := 5000

    method CollapseEntriesToHashes(p: CollapseParams) returns (r: Option<nat>)
      requires Inv(db)
      modifies this
      ensures Inv(db)
      ensures r.None? <==> p.user <= 0 && p.category.Some?
      ensures r.None? ==> db == old(db)
      ensures r.Some? ==>
                && OnlyEntriesGo(old(db), db)
                && (forall e :: e in old(db).entries ==> (e in db.entries <==> !MayCollapse(old(db), p, e)))
                && (forall x :: x in db.dedup <==>
                      x in old(db).dedup || (x.hash != "" && HeldBy(old(db), old(db).entries.Keys - db.entries.Keys, x)))
                && r.value == |old(db).entries.Keys - db.entries.Keys|
                && db == DeleteEntries(old(db), AllDoomed(old(db), Collapse(p)), true)
    {
      if p.user <= 0 && p.category.Some? {
        return None;
      }
      CollapseInColumns(db, p);
      var n := DeleteInBatches(Collapse(p), COLLAPSE_ENTRIES_BATCH_SIZE);
      r := Some(n);
    }

    /**
      The entry part of RunRetentionCleanup. Which entries go is decided by
      the tables as they were at the start, whatever order and batches they go
      in, and none of them is starred.
     */
    method RunRetentionCleanup(removedBefore: int, now: int) returns (removed: nat, aged: nat)
      requires Inv(db)
      modifies this
      ensures Inv(db)
      ensures OnlyEntriesGo(old(db), db) && db.dedup == old(db).dedup
      ensures forall e :: e in old(db).entries ==> (e in db.entries <==> !Outlived(old(db), e, removedBefore, now))
      ensures removed + aged == |old(db).entries.Keys - db.entries.Keys|
      ensures db == DeleteEntries(old(db), Expired(old(db), removedBefore, now), false)
      ensures forall k :: k in old(db).marks && old(db).marks[k].starred ==> k in db.marks && k.entry in db.entries
    {
      ExpiredInTurn(db, removedBefore, now);
      RetentionInColumns(db, removedBefore, now);
      ExpiredSparesStars(db, removedBefore, now);
      var n := DeleteInBatches(RemovedEverywhere(removedBefore), DELETE_BATCH_SIZE);
      var m := DeleteInBatches(Hidden(removedBefore), DELETE_BATCH_SIZE);
      removed := n + m;
      aged := DeleteInBatches(PastRetention(now), DELETE_BATCH_SIZE);
    }
  }
}
