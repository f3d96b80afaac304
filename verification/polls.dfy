/**
  What a poll stores: the filtered and relay path that keeps only what some
  subscriber's filter wants, the full path, and the fingerprint that skips a
  poll whose items are those of the last one.

  A subscriber's filters are the set of items they match; sanitizing is part
  of the items. The stored fingerprint is the text that is fed to the digest.
 */
module Polls {
  import opened Prelude
  import opened Text
  import opened Catalog
  import opened CatalogInvariant
  import opened CatalogRuns
  import opened Fingerprint
  import Store

  // -------------------------------------------------------- splitting a batch

  function NonEmpty(items: seq<Item>): seq<Item>
    decreases |items|
  {
    if items == [] then []
    else NonEmpty(items[..|items| - 1]) + (if items[|items| - 1].hash == "" then [] else [items[|items| - 1]])
  }

  /** What FilterKnownEntryHashes answers: blank hashes are never asked for. */
  function KnownAsked(db: Db, feed: int): set<string> {
    set h | h in Known(db, feed) && !Blank(h)
  }

  /** First occurrences of unknown, non-empty hashes. */
  function FreshItems(db: Db, feed: int, items: seq<Item>): seq<Item> {
    Fresh(NonEmpty(items), KnownAsked(db, feed))
  }

  predicate WantedBy(subscribers: seq<set<Item>>, x: Item) {
    exists j :: 0 <= j < |subscribers| && x in subscribers[j]
  }

  /** The items of a sequence that are wanted, or those that are not, in order. */
  function Select(items: seq<Item>, subscribers: seq<set<Item>>, wanted: bool): seq<Item>
    decreases |items|
  {
    if items == [] then []
    else
      var last := items[|items| - 1];
      Select(items[..|items| - 1], subscribers, wanted) + (if WantedBy(subscribers, last) == wanted then [last] else [])
  }

  lemma SelectNext(items: seq<Item>, x: Item, subscribers: seq<set<Item>>, wanted: bool)
    ensures Select(items + [x], subscribers, wanted) ==
            Select(items, subscribers, wanted) + (if WantedBy(subscribers, x) == wanted then [x] else [])
  {
  }

  lemma {:induction false} NonEmptySound(items: seq<Item>)
    ensures forall x :: x in NonEmpty(items) <==> x in items && x.hash != ""
    decreases |items|
  {
    if items != [] {
      NonEmptySound(items[..|items| - 1]);
      assert items == items[..|items| - 1] + [items[|items| - 1]];
    }
  }

  lemma {:induction false} SelectSound(items: seq<Item>, subscribers: seq<set<Item>>, wanted: bool)
    ensures forall x :: x in Select(items, subscribers, wanted) <==> x in items && WantedBy(subscribers, x) == wanted
    decreases |items|
  {
    if items != [] {
      SelectSound(items[..|items| - 1], subscribers, wanted);
      assert items == items[..|items| - 1] + [items[|items| - 1]];
    }
  }

  /** The two halves are the whole, item by item. */
  lemma {:induction false} SelectPartitions(items: seq<Item>, subscribers: seq<set<Item>>)
    ensures multiset(Select(items, subscribers, true)) + multiset(Select(items, subscribers, false)) == multiset(items)
    decreases |items|
  {
    if items != [] {
      var init, last := items[..|items| - 1], items[|items| - 1];
      SelectPartitions(init, subscribers);
      assert items == init + [last];
      if WantedBy(subscribers, last) {
        assert Select(items, subscribers, true) == Select(init, subscribers, true) + [last];
        assert Select(items, subscribers, false) == Select(init, subscribers, false);
      } else {
        assert Select(items, subscribers, true) == Select(init, subscribers, true);
        assert Select(items, subscribers, false) == Select(init, subscribers, false) + [last];
      }
    }
  }

  /** What counts as fresh: each new non-empty hash once, and everything else is known. */
  lemma FreshItemsExact(db: Db, feed: int, items: seq<Item>)
    ensures var r := FreshItems(db, feed, items);
            && (forall x :: x in r ==> x in items && x.hash != "" && x.hash !in KnownAsked(db, feed))
            && (forall i, j :: 0 <= i < j < |r| ==> r[i].hash != r[j].hash)
            && (forall x :: x in items && x.hash != "" ==> x.hash in KnownAsked(db, feed) + Store.HashSet(r))
  {
    NonEmptySound(items);
    FreshSound(NonEmpty(items), KnownAsked(db, feed));
    FreshComplete(NonEmpty(items), KnownAsked(db, feed));
  }

  // ------------------------------------------------------------- the whole poll

  datatype Stored = Stored(db: Db, newItems: nat)

  function SetFingerprint(db: Db, feed: int, h: string): Db {
    if feed in db.feeds then db.(feeds := db.feeds[feed := db.feeds[feed].(itemsHash := h)]) else db
  }

  /** processEntriesFiltered for a fetched batch, up to the refresh metadata. */
  function ProcessFiltered(db: Db, feed: int, items: seq<Item>, subscribers: seq<set<Item>>, relay: bool, now: int): Result<Stored, Error> {
    var r := FreshItems(db, feed, items);
    var stored := StorePoll(db, feed, Select(r, subscribers, true), Store.HashSet(Select(r, subscribers, false)), relay, now);
    if stored.Err? then Err(stored.error) else Ok(Stored(stored.value, |r|))
  }

  /** storeFetched behind the fingerprint check. */
  function Process(db: Db, feed: int, items: seq<Item>, subscribers: seq<set<Item>>, now: int): Result<Stored, Error>
    requires feed in db.feeds
  {
    if !db.feeds[feed].mode.Full? then ProcessFiltered(db, feed, items, subscribers, db.feeds[feed].mode.Relay?, now)
    else
      var stored := StorePoll(db, feed, items, {}, false, now);
      if stored.Err? then Err(stored.error) else Ok(Stored(stored.value, |Fresh(items, Known(db, feed))|))
  }

  /** storeFetched with its shortcut; a poll that fails leaves everything as it was. */
  function Poll(db: Db, feed: int, items: seq<Item>, subscribers: seq<set<Item>>, now: int): Db {
    if feed !in db.feeds then db
    else if ItemSet(items) != "" && ItemSet(items) == db.feeds[feed].itemsHash then db
    else
      var r := Process(db, feed, items, subscribers, now);
      if r.Err? then db else SetFingerprint(r.value.db, feed, ItemSet(items))
  }

  // ------------------------------------------------------- what is known afterwards

  lemma CreatedAreKnown(db: Db, feed: int, items: seq<Item>, relay: bool, now: int)
    requires KeysHold(db) && CreateEntries(db, feed, items, relay, now).Ok?
    ensures var d := CreateEntries(db, feed, items, relay, now).value;
            Known(db, feed) <= Known(d, feed) && forall x :: x in items ==> x.hash in Known(d, feed)
  {
    var d := CreateEntries(db, feed, items, relay, now).value;
    var added := Fresh(items, Known(db, feed));
    FreshComplete(items, Known(db, feed));
    InsertedEntries(db, feed, added, relay, now);
    forall h | h in Known(db, feed) ensures h in Known(d, feed) {
      if h !in (set x | x in db.dedup && x.feed == feed :: x.hash) {
        var e :| e in db.entries && db.entries[e].feed == feed && db.entries[e].hash == h;
        assert e in d.entries && d.entries[e] == db.entries[e];
      }
    }
    forall x | x in items ensures x.hash in Known(d, feed) {
      if x.hash !in Known(db, feed) {
        var y :| y in added && y.hash == x.hash;
        var i :| 0 <= i < |added| && added[i] == y;
        assert InRange(db.nextEntry + i, db.nextEntry, |added|);
      }
    }
  }

  lemma StoredAreKnown(db: Db, feed: int, wanted: seq<Item>, hashOnly: set<string>, relay: bool, now: int)
    requires KeysHold(db) && StorePoll(db, feed, wanted, hashOnly, relay, now).Ok?
    ensures var d := StorePoll(db, feed, wanted, hashOnly, relay, now).value;
            && Known(db, feed) <= Known(d, feed) && hashOnly <= Known(d, feed)
            && (forall x :: x in wanted ==> x.hash in Known(d, feed))
            && (forall h :: h in hashOnly ==> !Blank(h))
  {
    CreatedAreKnown(db, feed, wanted, relay, now);
    var c := CreateEntries(db, feed, wanted, relay, now).value;
    var d := RecordDedup(c, feed, hashOnly);
    forall h | h in hashOnly ensures h in Known(d, feed) {
      assert Seen(feed, h) in d.dedup;
    }
    forall h | h in Known(c, feed) ensures h in Known(d, feed) {
      if h in (set x | x in c.dedup && x.feed == feed :: x.hash) {
        assert Seen(feed, h) in d.dedup;
      }
    }
  }

  /** After a filtered poll every non-empty hash of the batch is known. */
  lemma FilteredPollRemembers(db: Db, feed: int, items: seq<Item>, subscribers: seq<set<Item>>, relay: bool, now: int)
    requires KeysHold(db) && ProcessFiltered(db, feed, items, subscribers, relay, now).Ok?
    ensures var d := ProcessFiltered(db, feed, items, subscribers, relay, now).value.db;
            Known(db, feed) <= Known(d, feed) && forall x :: x in items && x.hash != "" ==> x.hash in Known(d, feed)
  {
    var r := FreshItems(db, feed, items);
    var hashOnly := Store.HashSet(Select(r, subscribers, false));
    FreshItemsExact(db, feed, items);
    SelectSound(r, subscribers, true);
    SelectSound(r, subscribers, false);
    StoredAreKnown(db, feed, Select(r, subscribers, true), hashOnly, relay, now);
    var d := ProcessFiltered(db, feed, items, subscribers, relay, now).value.db;
    forall x | x in items && x.hash != "" ensures x.hash in Known(d, feed) {
      if x.hash !in KnownAsked(db, feed) {
        var y :| y in r && y.hash == x.hash;
        if WantedBy(subscribers, y) {
          assert y in Select(r, subscribers, true);
        } else {
          assert y in Select(r, subscribers, false) && y.hash in hashOnly;
        }
      }
    }
  }

  predicate BlankHash(x: Item) {
    x.hash != "" && Blank(x.hash)
  }

  /**
    Repeating a filtered poll finds nothing fresh exactly when no item of it
    has a hash made of white space only: such a hash is never asked for, and
    so never known.
   */
  lemma RepeatedPollIsStaleIff(db: Db, feed: int, items: seq<Item>, subscribers: seq<set<Item>>, relay: bool, now: int)
    requires KeysHold(db) && ProcessFiltered(db, feed, items, subscribers, relay, now).Ok?
    ensures var d := ProcessFiltered(db, feed, items, subscribers, relay, now).value.db;
            FreshItems(d, feed, items) == [] <==> !exists x :: x in items && BlankHash(x)
  {
    var d := ProcessFiltered(db, feed, items, subscribers, relay, now).value.db;
    FilteredPollRemembers(db, feed, items, subscribers, relay, now);
    FreshItemsExact(d, feed, items);
    var r := FreshItems(d, feed, items);
    if r != [] {
      assert r[0] in r && r[0].hash in Known(d, feed) && BlankHash(r[0]);
    }
    if x :| x in items && BlankHash(x) {
      assert x.hash !in KnownAsked(d, feed) && x.hash in Store.HashSet(r);
    }
  }

  /** A batch without blank hashes is split exactly: the wanted half becomes entries, one each, the other half hashes. */
  lemma FilteredPollSplits(db: Db, feed: int, items: seq<Item>, subscribers: seq<set<Item>>, relay: bool, now: int)
    requires KeysHold(db) && feed in db.feeds && !exists x :: x in items && BlankHash(x)
    ensures var r := FreshItems(db, feed, items);
            var wanted := Select(r, subscribers, true);
            && ProcessFiltered(db, feed, items, subscribers, relay, now) ==
               Ok(Stored(AllStored(db, feed, wanted, Store.HashSet(Select(r, subscribers, false)), relay, now), |r|))
            && multiset(wanted) + multiset(Select(r, subscribers, false)) == multiset(r)
  {
    var r := FreshItems(db, feed, items);
    var wanted := Select(r, subscribers, true);
    FreshItemsExact(db, feed, items);
    SelectSound(r, subscribers, true);
    SelectSound(r, subscribers, false);
    SelectPartitions(r, subscribers);
    forall x | x in wanted ensures x.hash !in Known(db, feed) && x.hash != "" {
      assert x in items && !BlankHash(x);
    }
    SelectDistinct(r, subscribers, true);
    forall h | h in Store.HashSet(Select(r, subscribers, false)) ensures !Blank(h) {
      var y :| y in Select(r, subscribers, false) && y.hash == h;
      assert y in items && !BlankHash(y);
    }
    StoresAll(db, feed, wanted, Store.HashSet(Select(r, subscribers, false)), relay, now);
  }

  /** Every wanted item becomes an entry, every other hash a dedup row. */
  function AllStored(db: Db, feed: int, wanted: seq<Item>, hashOnly: set<string>, relay: bool, now: int): Db {
    RecordDedup(if wanted == [] then db else InsertRows(db, feed, wanted, relay, now), feed, hashOnly)
  }

  lemma StoresAll(db: Db, feed: int, wanted: seq<Item>, hashOnly: set<string>, relay: bool, now: int)
    requires feed in db.feeds && DistinctHashes(wanted) && forall h :: h in hashOnly ==> !Blank(h)
    requires forall x :: x in wanted ==> x.hash !in Known(db, feed) && x.hash != ""
    ensures StorePoll(db, feed, wanted, hashOnly, relay, now) == Ok(AllStored(db, feed, wanted, hashOnly, relay, now))
  {
    FreshOfFresh(wanted, Known(db, feed));
    assert forall i :: 0 <= i < |wanted| ==> wanted[i] in wanted;
    if wanted != [] {
      assert InsertRows(db, feed, wanted, relay, now).feeds == db.feeds;
    }
  }

  ghost predicate DistinctHashes(s: seq<Item>) {
    forall i, j :: 0 <= i < j < |s| ==> s[i].hash != s[j].hash
  }

  lemma {:induction false} SelectDistinct(items: seq<Item>, subscribers: seq<set<Item>>, wanted: bool)
    requires DistinctHashes(items)
    ensures DistinctHashes(Select(items, subscribers, wanted))
    decreases |items|
  {
    if items != [] {
      var init, last := items[..|items| - 1], items[|items| - 1];
      SelectDistinct(init, subscribers, wanted);
      SelectSound(init, subscribers, wanted);
      var s := Select(init, subscribers, wanted);
      forall i | 0 <= i < |s| ensures s[i].hash != last.hash {
        assert s[i] in s && s[i] in init;
      }
    }
  }

  /** Items that are all new and different are all inserted. */
  lemma {:induction false} FreshOfFresh(items: seq<Item>, known: set<string>)
    requires DistinctHashes(items) && forall x :: x in items ==> x.hash !in known
    ensures Fresh(items, known) == items
    decreases |items|
  {
    if items != [] {
      forall x | x in items[1..] ensures x.hash !in known + {items[0].hash} {
        var i :| 0 <= i < |items[1..]| && items[1..][i] == x;
        assert items[i + 1] == x;
      }
      FreshOfFresh(items[1..], known + {items[0].hash});
      assert items == [items[0]] + items[1..];
    }
  }

  // ------------------------------------------------------------ the shortcut

  lemma {:induction false} FreshNone(items: seq<Item>, known: set<string>)
    requires forall x :: x in items ==> x.hash in known
    ensures Fresh(items, known) == []
    decreases |items|
  {
    if items != [] {
      assert items[0] in items;
      FreshNone(items[1..], known);
    }
  }

  predicate AllKnown(db: Db, feed: int, items: seq<Item>) {
    forall x :: x in items && x.hash != "" ==> x.hash in Known(db, feed)
  }

  lemma NothingNew(db: Db, feed: int, wanted: seq<Item>, hashOnly: set<string>, relay: bool, now: int)
    requires (forall x :: x in wanted ==> x.hash in Known(db, feed)) && forall h :: h in hashOnly ==> Blank(h)
    ensures var r := StorePoll(db, feed, wanted, hashOnly, relay, now); r.Ok? ==> r.value == db
  {
    FreshNone(wanted, Known(db, feed));
    if hashOnly != {} {
      assert Blank(Pick(hashOnly));
    } else {
      assert RecordDedup(db, feed, hashOnly) == db;
    }
  }

  /** A poll all of whose non-empty hashes are known stores nothing, whatever path it takes. */
  lemma KnownPollStoresNothing(db: Db, feed: int, items: seq<Item>, subscribers: seq<set<Item>>, now: int)
    requires feed in db.feeds && AllKnown(db, feed, items)
    ensures var r := Process(db, feed, items, subscribers, now); r.Ok? ==> r.value.db == db
  {
    if db.feeds[feed].mode.Full? {
      if Process(db, feed, items, subscribers, now).Ok? {
        forall x | x in items ensures x.hash in Known(db, feed) {
          var i :| 0 <= i < |items| && items[i] == x;
          assert items[i].hash != "";
        }
        NothingNew(db, feed, items, {}, false, now);
      }
    } else {
      var r := FreshItems(db, feed, items);
      FreshItemsExact(db, feed, items);
      SelectSound(r, subscribers, true);
      SelectSound(r, subscribers, false);
      assert forall x :: x in r ==> x.hash in Known(db, feed) && BlankHash(x);
      NothingNew(db, feed, Select(r, subscribers, true), Store.HashSet(Select(r, subscribers, false)), db.feeds[feed].mode.Relay?, now);
    }
  }

  /** The stored fingerprint is that of a batch whose hashes are all known. */
  ghost predicate Remembered(db: Db, feed: int, h: string) {
    exists items :: NulFreeItems(items) && ItemSet(items) == h && AllKnown(db, feed, items)
  }

  ghost predicate Fingerprinted(db: Db) {
    forall f :: f in db.feeds && db.feeds[f].itemsHash != "" ==> Remembered(db, f, db.feeds[f].itemsHash)
  }

  datatype PollOp = Storage(op: Op) | FeedPoll(feed: int, items: seq<Item>, subscribers: seq<set<Item>>)

  datatype TimedPoll = TimedPoll(op: PollOp, now: int)

  function PollStep(db: Db, op: PollOp, now: int): Db {
    match op
    case Storage(o) => Step(db, o, now)
    case FeedPoll(f, items, subscribers) => Poll(db, f, items, subscribers, now)
  }

  /** No retention, and no NUL in a hash (a text column cannot hold one). */
  ghost predicate Calm(db: Db, op: PollOp) {
    match op
    case Storage(o) => Allowed(db, o) && !o.Retention?
    case FeedPoll(f, items, subscribers) => NulFreeItems(items)
  }

  function PollRun(db: Db, run: seq<TimedPoll>): Db
    decreases |run|
  {
    if run == [] then db else PollRun(PollStep(db, run[0].op, run[0].now), run[1..])
  }

  ghost predicate AllCalm(db: Db, run: seq<TimedPoll>)
    decreases |run|
  {
    run == [] || (Calm(db, run[0].op) && AllCalm(PollStep(db, run[0].op, run[0].now), run[1..]))
  }

  /** No other operation sets a fingerprint; it stays, is cleared, or goes with its feed. */
  ghost predicate FingerprintsStay(db: Db, d: Db) {
    forall f :: f in d.feeds ==> d.feeds[f].itemsHash == "" || (f in db.feeds && d.feeds[f].itemsHash == db.feeds[f].itemsHash)
  }

  lemma {:induction false} MoveAllFingerprints(db: Db, ids: seq<int>, target: Option<int>)
    requires forall i :: 0 <= i < |ids| ==> ids[i] in db.feeds
    ensures FingerprintsStay(db, MoveAll(db, ids, target))
    decreases |ids|
  {
    if ids != [] {
      MoveAllFingerprints(MoveFeed(db, ids[0], target), ids[1..], target);
    }
  }

  lemma CatalogFingerprints(db: Db, op: CatalogOp)
    ensures FingerprintsStay(db, CatalogStep(db, op))
  {
    match op
    case OpMoveFeeds(fs, c) => if Movable(db, fs, c) { MoveAllFingerprints(db, fs, c); }
    case OpCreateFeed(u, row, skip) => CreateFingerprints(db, u, row, skip);
    case OpUpdateFeed(f, c, mode, days, same) => UpdateFingerprints(db, f, c, mode, days, same);
    case _ =>
  }

  lemma CreateFingerprints(db: Db, owner: int, row: Feed, skip: bool)
    ensures FingerprintsStay(db, Committed(db, CreateFeed(db, owner, row, skip)))
  {
  }

  lemma UpdateFingerprints(db: Db, f: int, c: Option<int>, mode: StoreMode, days: Option<int>, same: bool)
    ensures FingerprintsStay(db, Committed(db, UpdateFeed(db, f, c, mode, days, same)))
  {
    if UpdateFeed(db, f, c, mode, days, same).Ok? {
      MovedFeedRow(Reconfigure(db, f, mode, days, same), f, c);
    }
  }

  lemma MovedFeedRow(db: Db, f: int, c: Option<int>)
    requires f in db.feeds
    ensures MoveFeed(db, f, c).feeds == db.feeds[f := db.feeds[f].(category := c)]
  {
  }

  lemma UserStepFeeds(db: Db, op: UserOp, now: int)
    ensures UserStep(db, op, now).feeds == db.feeds
  {
  }

  lemma EntryStepFeeds(db: Db, op: EntryOp, now: int)
    ensures EntryStep(db, op, now).feeds == db.feeds
  {
  }

  lemma StepFingerprints(db: Db, op: Op, now: int)
    requires !op.Retention?
    ensures FingerprintsStay(db, Step(db, op, now))
  {
    match op
    case ByUser(u) => UserStepFeeds(db, u, now);
    case OnEntries(e) => EntryStepFeeds(db, e, now);
    case OnCatalog(c) => CatalogFingerprints(db, c);
  }

  lemma StillRemembered(db: Db, d: Db, feed: int, h: string)
    requires Remembered(db, feed, h) && Known(db, feed) <= Known(d, feed)
    ensures Remembered(d, feed, h)
  {
    var items :| NulFreeItems(items) && ItemSet(items) == h && AllKnown(db, feed, items);
    assert AllKnown(d, feed, items);
  }

  /** A feed that has a fingerprint after the step was not deleted by it. */
  lemma FingerprintMeansKept(db: Db, op: Op, now: int, feed: int)
    requires !op.Retention? && feed in Step(db, op, now).feeds
    ensures feed in db.feeds ==> !Forgets(op, feed)
  {
  }

  lemma StorageKeepsFingerprinted(db: Db, op: Op, now: int)
    requires Inv(db) && Fingerprinted(db) && Calm(db, Storage(op))
    ensures Inv(Step(db, op, now)) && Fingerprinted(Step(db, op, now))
  {
    StepKeepsInvariant(db, op, now);
    StepFingerprints(db, op, now);
    forall f | f in Step(db, op, now).feeds && Step(db, op, now).feeds[f].itemsHash != ""
      ensures Remembered(Step(db, op, now), f, Step(db, op, now).feeds[f].itemsHash)
    {
      FingerprintMeansKept(db, op, now, f);
      StepKeepsKnown(db, op, now, f);
      StillRemembered(db, Step(db, op, now), f, db.feeds[f].itemsHash);
    }
  }

  lemma ProcessKeeps(db: Db, feed: int, items: seq<Item>, subscribers: seq<set<Item>>, now: int)
    requires Inv(db) && feed in db.feeds && Process(db, feed, items, subscribers, now).Ok?
    ensures var d := Process(db, feed, items, subscribers, now).value.db;
            Inv(d) && d.feeds == db.feeds && AllKnown(d, feed, items)
            && forall f :: Known(db, f) <= Known(d, f)
  {
    var relay := db.feeds[feed].mode.Relay?;
    var r := FreshItems(db, feed, items);
    var full := db.feeds[feed].mode.Full?;
    var wanted := if full then items else Select(r, subscribers, true);
    var hashOnly := if full then {} else Store.HashSet(Select(r, subscribers, false));
    StorePollKeeps(db, feed, wanted, hashOnly, !full && relay, now);
    var d := StorePoll(db, feed, wanted, hashOnly, !full && relay, now).value;
    assert d == Process(db, feed, items, subscribers, now).value.db;
    forall f ensures Known(db, f) <= Known(d, f) {
      PollHashes(db, feed, wanted, hashOnly, !full && relay, now, f);
      HashesStayKnown(db, d, f);
    }
    if full {
      StoredAreKnown(db, feed, items, {}, false, now);
    } else {
      FilteredPollRemembers(db, feed, items, subscribers, relay, now);
    }
  }

  lemma HashesStayKnown(db: Db, d: Db, feed: int)
    requires HashesStay(db, d, feed)
    ensures Known(db, feed) <= Known(d, feed)
  {
  }

  lemma PollKeepsFingerprinted(db: Db, feed: int, items: seq<Item>, subscribers: seq<set<Item>>, now: int)
    requires Inv(db) && Fingerprinted(db) && NulFreeItems(items)
    ensures var d := Poll(db, feed, items, subscribers, now); Inv(d) && Fingerprinted(d)
  {
    if feed in db.feeds && !(ItemSet(items) != "" && ItemSet(items) == db.feeds[feed].itemsHash) {
      var r := Process(db, feed, items, subscribers, now);
      if r.Ok? {
        ProcessKeeps(db, feed, items, subscribers, now);
        var p := r.value.db;
        var d := SetFingerprint(p, feed, ItemSet(items));
        FeedRowKeeps(p, feed, d.feeds[feed]);
        forall f | f in d.feeds && d.feeds[f].itemsHash != "" ensures Remembered(d, f, d.feeds[f].itemsHash) {
          assert Known(d, f) == Known(p, f);
          if f == feed {
            assert AllKnown(d, f, items);
          } else {
            var before :| NulFreeItems(before) && ItemSet(before) == db.feeds[f].itemsHash && AllKnown(db, f, before);
            assert AllKnown(d, f, before);
          }
        }
      }
    }
  }

  lemma {:induction false} RunKeepsFingerprinted(db: Db, run: seq<TimedPoll>)
    requires Inv(db) && Fingerprinted(db) && AllCalm(db, run)
    ensures Inv(PollRun(db, run)) && Fingerprinted(PollRun(db, run))
    decreases |run|
  {
    if run != [] {
      match run[0].op
      case Storage(o) =>
        StorageKeepsFingerprinted(db, o, run[0].now);
        RunKeepsFingerprinted(PollStep(db, run[0].op, run[0].now), run[1..]);
      case FeedPoll(f, items, subscribers) =>
        PollKeepsFingerprinted(db, f, items, subscribers, run[0].now);
        RunKeepsFingerprinted(PollStep(db, run[0].op, run[0].now), run[1..]);
    }
  }

  /** Where the fingerprint matches, every hash of the batch is known. */
  lemma MatchMeansKnown(db: Db, feed: int, items: seq<Item>)
    requires Fingerprinted(db) && NulFreeItems(items) && feed in db.feeds
    requires ItemSet(items) != "" && ItemSet(items) == db.feeds[feed].itemsHash
    ensures AllKnown(db, feed, items)
  {
    var was :| NulFreeItems(was) && ItemSet(was) == ItemSet(items) && AllKnown(db, feed, was);
    SameFingerprintIff(was, items);
    forall x | x in items && x.hash != "" ensures x.hash in Known(db, feed) {
      var i :| 0 <= i < |items| && items[i] == x;
      assert Hashes(items)[i] in multiset(Hashes(items)) && x.hash in multiset(Hashes(was));
      var j :| 0 <= j < |was| && Hashes(was)[j] == x.hash;
      assert was[j] in was;
    }
  }

  /**
    The shortcut refines the full path: after any run without retention, a
    poll it skips would have left the tables exactly as they are.
   */
  lemma SkippedPollStoresNothing(db: Db, run: seq<TimedPoll>, feed: int, items: seq<Item>, subscribers: seq<set<Item>>, now: int)
    requires Inv(db) && Fingerprinted(db) && AllCalm(db, run) && NulFreeItems(items)
    requires var d := PollRun(db, run); feed in d.feeds && ItemSet(items) != "" && ItemSet(items) == d.feeds[feed].itemsHash
    ensures var d := PollRun(db, run);
            && Poll(d, feed, items, subscribers, now) == d
            && AllKnown(d, feed, items)
            && (Process(d, feed, items, subscribers, now).Ok? ==> Process(d, feed, items, subscribers, now).value.db == d)
  {
    RunKeepsFingerprinted(db, run);
    var d := PollRun(db, run);
    MatchMeansKnown(d, feed, items);
    KnownPollStoresNothing(d, feed, items, subscribers, now);
  }

  // ------------------------------------------------------------- the refresher

  /** Only what the items ask about matters. */
  lemma {:induction false} FreshAgrees(items: seq<Item>, a: set<string>, b: set<string>)
    requires forall x :: x in items ==> (x.hash in a <==> x.hash in b)
    ensures Fresh(items, a) == Fresh(items, b)
    decreases |items|
  {
    if items != [] {
      assert items[0] in items;
      forall x | x in items[1..] ensures x.hash in a + {items[0].hash} <==> x.hash in b + {items[0].hash} {
        assert x in items;
      }
      if items[0].hash in a {
        FreshAgrees(items[1..], a, b);
      } else {
        FreshAgrees(items[1..], a + {items[0].hash}, b + {items[0].hash});
      }
    }
  }

  lemma KnownOfBatch(db: Db, feed: int, items: seq<Item>, asked: seq<string>)
    requires forall h :: h in asked <==> !Blank(h) && h in Store.HashSet(items)
    ensures Fresh(NonEmpty(items), Known(db, feed) * Elements(asked)) == FreshItems(db, feed, items)
  {
    NonEmptySound(items);
    FreshAgrees(NonEmpty(items), Known(db, feed) * Elements(asked), KnownAsked(db, feed));
  }

  lemma RowChangeKeeps(db: Db, feed: int, h: string)
    requires Inv(db)
    ensures Inv(SetFingerprint(db, feed, h))
  {
  }
}
