/**
  What a poll leaves in the tables, in columns: which items become entries,
  what their rows say, which hashes are remembered, and when a poll fails.
 */
module PollColumns {
  import opened Prelude
  import opened Text
  import opened Catalog
  import opened CatalogInvariant
  import opened CatalogRuns
  import opened Fingerprint
  import opened Polls
  import Store

  // --------------------------------------------------------------- the promises

  /** Item i is the first of its hash, and neither an entry nor the dedup table of the feed has that hash. */
  predicate BringsNews(db: Db, feed: int, items: seq<Item>, i: int) {
    && 0 <= i < |items| && items[i].hash != ""
    && (forall j :: 0 <= j < i ==> items[j].hash != items[i].hash)
    && (forall e :: e in db.entries && db.entries[e].feed == feed ==> db.entries[e].hash != items[i].hash)
    && Seen(feed, items[i].hash) !in db.dedup
  }

  /** A full feed keeps every item, any other one those some subscriber's filters match. */
  predicate Kept(db: Db, feed: int, subscribers: seq<set<Item>>, x: Item)
    requires feed in db.feeds
  {
    db.feeds[feed].mode == Full || exists k :: 0 <= k < |subscribers| && x in subscribers[k]
  }

  ghost predicate NewRows(db: Db, d: Db, feed: int, now: int)
    requires feed in db.feeds
  {
    forall e :: e in d.entries && e !in db.entries ==> NewRow(db, d, feed, now, e)
  }

  /** A new entry is the feed's; relayed it is hidden from the start, otherwise it is unread for exactly the feed's readers. */
  ghost predicate NewRow(db: Db, d: Db, feed: int, now: int, e: int)
    requires feed in db.feeds && e in d.entries
  {
    && d.entries[e].feed == feed && d.entries[e].createdAt == now
    && d.entries[e].removedAt == (if db.feeds[feed].mode == Relay then Some(now) else None)
    && (forall u :: UserEntry(e, u) in d.unread <==> db.feeds[feed].mode != Relay && Sub(u, feed) in db.subs)
  }

  /** What was there stays. */
  ghost predicate OldRowsStay(db: Db, d: Db) {
    && (forall e :: e in db.entries ==> e in d.entries && d.entries[e] == db.entries[e])
    && (forall k :: k in db.unread ==> k in d.unread && d.unread[k] == db.unread[k])
    && (forall k :: k in d.unread && k !in db.unread ==> k.entry !in db.entries)
    && d.marks == db.marks && d.entryLabels == db.entryLabels && d.subs == db.subs && d.followers == db.followers
    && d.categories == db.categories && d.logs == db.logs && d.labelOwner == db.labelOwner && d.nextFeed == db.nextFeed
  }

  ghost predicate KeptNews(db: Db, feed: int, items: seq<Item>, subscribers: seq<set<Item>>, i: int)
    requires feed in db.feeds
  {
    BringsNews(db, feed, items, i) && Kept(db, feed, subscribers, items[i])
  }

  ghost predicate HasNewEntry(db: Db, d: Db, hash: string) {
    exists e :: e in d.entries && e !in db.entries && d.entries[e].hash == hash
  }

  ghost predicate FromItem(db: Db, feed: int, items: seq<Item>, subscribers: seq<set<Item>>, row: Entry)
    requires feed in db.feeds
  {
    exists i :: KeptNews(db, feed, items, subscribers, i) && row.hash == items[i].hash && row.sortAt == items[i].sortAt
  }

  /** The new entries are the kept news; no two entries of a feed share a hash, so it is one each. */
  ghost predicate EntriesAreNews(db: Db, d: Db, feed: int, items: seq<Item>, subscribers: seq<set<Item>>)
    requires feed in db.feeds
  {
    && (forall e :: e in d.entries && e !in db.entries ==> FromItem(db, feed, items, subscribers, d.entries[e]))
    && (forall i :: KeptNews(db, feed, items, subscribers, i) ==> HasNewEntry(db, d, items[i].hash))
  }

  /** The dedup table gets exactly the hashes of the news that are not kept. */
  ghost predicate HashesAreRest(db: Db, d: Db, feed: int, items: seq<Item>, subscribers: seq<set<Item>>)
    requires feed in db.feeds
  {
    forall x :: x in d.dedup <==>
      x in db.dedup
      || (x.feed == feed && exists i :: BringsNews(db, feed, items, i) && items[i].hash == x.hash && !Kept(db, feed, subscribers, items[i]))
  }

  /** A full poll fails on an item without a hash; any other one when a hash of spaces would have to be remembered. */
  ghost predicate Unstorable(db: Db, feed: int, items: seq<Item>, subscribers: seq<set<Item>>)
    requires feed in db.feeds
  {
    if db.feeds[feed].mode == Full then exists i :: 0 <= i < |items| && items[i].hash == ""
    else exists i :: 0 <= i < |items| && items[i].hash != "" && Blank(items[i].hash)
                     && (forall j :: 0 <= j < i ==> items[j].hash != items[i].hash)
                     && !Kept(db, feed, subscribers, items[i])
  }

  // ---------------------------------------------------------------- the items

  predicate FirstOf(items: seq<Item>, i: int) {
    0 <= i < |items| && forall j :: 0 <= j < i ==> items[j].hash != items[i].hash
  }

  lemma FirstNext(items: seq<Item>, x: Item, i: int)
    ensures FirstOf(items + [x], i) <==> FirstOf(items, i) || (i == |items| && x.hash !in Store.HashSet(items))
  {
    var all := items + [x];
    if i == |items| {
      forall j | 0 <= j < i ensures all[j] == items[j] && items[j] in items {
      }
      if x.hash in Store.HashSet(items) {
        var y :| y in items && y.hash == x.hash;
        var j :| 0 <= j < |items| && items[j] == y;
        assert all[j].hash == all[i].hash;
      }
    } else if 0 <= i < |items| {
      assert forall j :: 0 <= j <= i ==> all[j] == items[j];
    }
  }

  /** Dropping known hashes and repetitions leaves the first item of each hash that is new. */
  lemma {:induction false} FirstOnes(items: seq<Item>, known: set<string>)
    ensures forall x :: x in Fresh(NonEmpty(items), known) <==> IsFirst(items, known, x)
    decreases |items|
  {
    if items != [] {
      var init, last := items[..|items| - 1], items[|items| - 1];
      assert items == init + [last];
      FirstOnes(init, known);
      FreshAppended(init, last, known);
      forall x ensures x in Fresh(NonEmpty(items), known) <==> IsFirst(items, known, x) {
        FirstAppended(init, last, known, x);
      }
    }
  }

  ghost predicate IsFirst(items: seq<Item>, known: set<string>, x: Item) {
    x.hash != "" && x.hash !in known && exists i :: FirstOf(items, i) && items[i] == x
  }

  lemma HashIsTaken(items: seq<Item>, h: string, known: set<string>)
    requires h != "" && h !in known
    ensures h in Store.HashSet(Fresh(NonEmpty(items), known)) <==> h in Store.HashSet(items)
  {
    NonEmptySound(items);
    FreshComplete(NonEmpty(items), known);
    FreshSound(NonEmpty(items), known);
    if h in Store.HashSet(items) {
      var y :| y in items && y.hash == h;
      assert y in NonEmpty(items);
    }
  }

  lemma FreshAppended(init: seq<Item>, last: Item, known: set<string>)
    ensures forall x :: x in Fresh(NonEmpty(init + [last]), known) <==>
              x in Fresh(NonEmpty(init), known) || (x == last && last.hash != "" && last.hash !in known && last.hash !in Store.HashSet(init))
  {
    var items := init + [last];
    assert items[..|items| - 1] == init && items[|items| - 1] == last;
    if last.hash != "" {
      assert NonEmpty(items) == NonEmpty(init) + [last];
      Store.FreshNext(NonEmpty(init), last, known);
      if last.hash !in known {
        HashIsTaken(init, last.hash, known);
      }
    } else {
      assert NonEmpty(items) == NonEmpty(init);
    }
  }

  lemma FirstAppended(init: seq<Item>, last: Item, known: set<string>, x: Item)
    ensures IsFirst(init + [last], known, x) <==>
            IsFirst(init, known, x) || (x == last && last.hash != "" && last.hash !in known && last.hash !in Store.HashSet(init))
  {
    var items := init + [last];
    FirstNext(init, last, |init|);
    if i :| FirstOf(init, i) && init[i] == x {
      FirstNext(init, last, i);
      assert items[i] == x;
    }
    if i :| FirstOf(items, i) && items[i] == x {
      FirstNext(init, last, i);
      if i < |init| {
        assert init[i] == x;
      }
    }
  }

  // ------------------------------------------------------------- the two halves

  lemma NewsIsFirst(db: Db, feed: int, items: seq<Item>, i: int)
    ensures BringsNews(db, feed, items, i) <==> FirstOf(items, i) && items[i].hash != "" && items[i].hash !in Known(db, feed)
  {
    if FirstOf(items, i) {
      if Seen(feed, items[i].hash) in db.dedup {
        assert items[i].hash in Known(db, feed);
      }
      if e :| e in db.entries && db.entries[e].feed == feed && db.entries[e].hash == items[i].hash {
        assert items[i].hash in Known(db, feed);
      }
    }
  }

  lemma {:induction false} AllNonEmpty(items: seq<Item>)
    requires forall i :: 0 <= i < |items| ==> items[i].hash != ""
    ensures NonEmpty(items) == items
    decreases |items|
  {
    if items != [] {
      var init, last := items[..|items| - 1], items[|items| - 1];
      AllNonEmpty(init);
      assert NonEmpty(items) == init + [last];
    }
  }

  /** Of different items only the known ones are dropped. */
  lemma DifferentStay(items: seq<Item>, known: set<string>)
    requires DistinctHashes(items) && forall x :: x in items ==> x.hash != ""
    ensures forall x :: x in Fresh(items, known) <==> x in items && x.hash !in known
  {
    AllNonEmpty(items);
    FirstOnes(items, known);
    forall x | x in items ensures exists i :: FirstOf(items, i) && items[i] == x {
      var i :| 0 <= i < |items| && items[i] == x;
      assert FirstOf(items, i);
    }
  }

  lemma KeptIsWanted(db: Db, feed: int, subscribers: seq<set<Item>>, x: Item)
    requires feed in db.feeds && !db.feeds[feed].mode.Full?
    ensures Kept(db, feed, subscribers, x) <==> WantedBy(subscribers, x)
  {
  }

  /** The items StorePoll is given for entries. */
  function ForEntries(db: Db, feed: int, items: seq<Item>, subscribers: seq<set<Item>>): seq<Item>
    requires feed in db.feeds
  {
    if db.feeds[feed].mode.Full? then items else Select(FreshItems(db, feed, items), subscribers, true)
  }

  /** And the hashes for the dedup table. */
  function ForDedup(db: Db, feed: int, items: seq<Item>, subscribers: seq<set<Item>>): set<string>
    requires feed in db.feeds
  {
    if db.feeds[feed].mode.Full? then {} else Store.HashSet(Select(FreshItems(db, feed, items), subscribers, false))
  }

  ghost predicate NewsItem(db: Db, feed: int, items: seq<Item>, x: Item) {
    exists i :: BringsNews(db, feed, items, i) && items[i] == x
  }

  lemma NewsItemIsFirst(db: Db, feed: int, items: seq<Item>, x: Item)
    ensures NewsItem(db, feed, items, x) <==> IsFirst(items, Known(db, feed), x)
  {
    if i :| BringsNews(db, feed, items, i) && items[i] == x {
      NewsIsFirst(db, feed, items, i);
    }
    if x.hash != "" && x.hash !in Known(db, feed) {
      if i :| FirstOf(items, i) && items[i] == x {
        NewsIsFirst(db, feed, items, i);
      }
    }
  }

  lemma AddedAreNews(db: Db, feed: int, items: seq<Item>, subscribers: seq<set<Item>>)
    requires feed in db.feeds && (db.feeds[feed].mode.Full? ==> forall x :: x in items ==> x.hash != "")
    ensures forall x :: x in Fresh(ForEntries(db, feed, items, subscribers), Known(db, feed)) <==>
              NewsItem(db, feed, items, x) && Kept(db, feed, subscribers, x)
  {
    forall x ensures NewsItem(db, feed, items, x) <==> IsFirst(items, Known(db, feed), x) {
      NewsItemIsFirst(db, feed, items, x);
    }
    if db.feeds[feed].mode.Full? {
      AllNonEmpty(items);
      FirstOnes(items, Known(db, feed));
    } else {
      var r := FreshItems(db, feed, items);
      FreshItemsExact(db, feed, items);
      FirstOnes(items, KnownAsked(db, feed));
      SelectSound(r, subscribers, true);
      SelectDistinct(r, subscribers, true);
      DifferentStay(Select(r, subscribers, true), Known(db, feed));
      forall x ensures Kept(db, feed, subscribers, x) <==> WantedBy(subscribers, x) {
        KeptIsWanted(db, feed, subscribers, x);
      }
    }
  }

  /** Whatever is asked for nothing but spaces is not known, so without such hashes the rest is news. */
  lemma RestIsNews(db: Db, feed: int, items: seq<Item>, subscribers: seq<set<Item>>)
    requires feed in db.feeds && !db.feeds[feed].mode.Full?
    ensures forall h :: h in ForDedup(db, feed, items, subscribers) <==>
              exists x :: IsFirst(items, KnownAsked(db, feed), x) && x.hash == h && !Kept(db, feed, subscribers, x)
  {
    var r := FreshItems(db, feed, items);
    FirstOnes(items, KnownAsked(db, feed));
    SelectSound(r, subscribers, false);
    forall x ensures Kept(db, feed, subscribers, x) <==> WantedBy(subscribers, x) {
      KeptIsWanted(db, feed, subscribers, x);
    }
  }

  /** A hash of spaces that would have to be remembered. */
  lemma BlankRestIff(db: Db, feed: int, items: seq<Item>, subscribers: seq<set<Item>>)
    requires feed in db.feeds && !db.feeds[feed].mode.Full?
    ensures (exists h :: h in ForDedup(db, feed, items, subscribers) && Blank(h)) <==> Unstorable(db, feed, items, subscribers)
  {
    RestIsNews(db, feed, items, subscribers);
    if h :| h in ForDedup(db, feed, items, subscribers) && Blank(h) {
      var x :| IsFirst(items, KnownAsked(db, feed), x) && x.hash == h && !Kept(db, feed, subscribers, x);
      var i :| FirstOf(items, i) && items[i] == x;
      assert Unstorable(db, feed, items, subscribers);
    }
    if i :| 0 <= i < |items| && items[i].hash != "" && Blank(items[i].hash)
            && (forall j :: 0 <= j < i ==> items[j].hash != items[i].hash) && !Kept(db, feed, subscribers, items[i]) {
      assert FirstOf(items, i) && IsFirst(items, KnownAsked(db, feed), items[i]);
    }
  }

  /** A poll fails exactly in the two cases. */
  lemma FailsIff(db: Db, feed: int, items: seq<Item>, subscribers: seq<set<Item>>, now: int)
    requires feed in db.feeds
    ensures Process(db, feed, items, subscribers, now).Err? <==> Unstorable(db, feed, items, subscribers)
  {
    if !db.feeds[feed].mode.Full? {
      FilteredFailsIff(db, feed, items, subscribers, db.feeds[feed].mode.Relay?, now);
      BlankRestIff(db, feed, items, subscribers);
    }
  }

  lemma FilteredFailsIff(db: Db, feed: int, items: seq<Item>, subscribers: seq<set<Item>>, relay: bool, now: int)
    requires feed in db.feeds
    ensures ProcessFiltered(db, feed, items, subscribers, relay, now).Err? <==>
            exists h :: h in Store.HashSet(Select(FreshItems(db, feed, items), subscribers, false)) && Blank(h)
  {
    var r := FreshItems(db, feed, items);
    FreshItemsExact(db, feed, items);
    SelectSound(r, subscribers, true);
    var wanted := Select(r, subscribers, true);
    assert forall i :: 0 <= i < |wanted| ==> wanted[i] in wanted;
  }

  // ----------------------------------------------------------------- the tables

  /** The new entries and the items correspond. */
  ghost predicate OnePerItem(db: Db, d: Db, added: seq<Item>) {
    && (forall e :: e in d.entries && e !in db.entries ==> Carries(d.entries[e], added))
    && (forall x :: x in added ==> HasNewEntry(db, d, x.hash))
  }

  predicate Carries(row: Entry, added: seq<Item>) {
    exists x :: x in added && row.hash == x.hash && row.sortAt == x.sortAt
  }

  /** The rows of InsertRows. */
  lemma InsertedColumns(db: Db, feed: int, added: seq<Item>, relay: bool, now: int)
    requires KeysHold(db) && feed in db.feeds && UnreadRowsSound(db) && relay == (db.feeds[feed].mode == Relay)
    ensures var d := InsertRows(db, feed, added, relay, now);
            OldRowsStay(db, d) && NewRows(db, d, feed, now) && OnePerItem(db, d, added)
  {
    var d := InsertRows(db, feed, added, relay, now);
    InsertedEntries(db, feed, added, relay, now);
    forall k | k in db.unread ensures k.entry in db.entries {
      assert UnreadRowSound(db, k);
    }
    forall e | e in d.entries && e !in db.entries ensures NewRow(db, d, feed, now, e) && Carries(d.entries[e], added) {
      NewRowInColumns(db, feed, added, relay, now, e);
      assert added[e - db.nextEntry] in added;
    }
    forall x | x in added ensures HasNewEntry(db, d, x.hash) {
      var i :| 0 <= i < |added| && added[i] == x;
      assert InRange(db.nextEntry + i, db.nextEntry, |added|) && d.entries[db.nextEntry + i].hash == x.hash;
    }
    InsertedOldRows(db, feed, added, relay, now);
  }

  lemma NewRowInColumns(db: Db, feed: int, added: seq<Item>, relay: bool, now: int, e: int)
    requires feed in db.feeds && relay == (db.feeds[feed].mode == Relay) && InRange(e, db.nextEntry, |added|)
    requires forall k :: k in db.unread ==> k.entry < db.nextEntry
    ensures NewRow(db, InsertRows(db, feed, added, relay, now), feed, now, e)
  {
    forall u ensures u in ReadersOf(db, feed) <==> Sub(u, feed) in db.subs {
    }
  }

  lemma InsertedOldRows(db: Db, feed: int, added: seq<Item>, relay: bool, now: int)
    requires KeysHold(db) && forall k :: k in db.unread ==> k.entry in db.entries
    ensures OldRowsStay(db, InsertRows(db, feed, added, relay, now))
  {
  }

  /** The tables of a successful poll as inserted rows and remembered hashes. */
  lemma StoredIsInserted(db: Db, feed: int, items: seq<Item>, subscribers: seq<set<Item>>, now: int)
    requires feed in db.feeds && Process(db, feed, items, subscribers, now).Ok?
    ensures var added := Fresh(ForEntries(db, feed, items, subscribers), Known(db, feed));
            var d := InsertRows(db, feed, added, db.feeds[feed].mode == Relay, now);
            Process(db, feed, items, subscribers, now).value.db
            == RecordDedup(if added == [] then db else d, feed, ForDedup(db, feed, items, subscribers))
  {
    if ForEntries(db, feed, items, subscribers) == [] {
      assert Fresh(ForEntries(db, feed, items, subscribers), Known(db, feed)) == [];
    }
  }

  lemma RestInColumns(db: Db, feed: int, items: seq<Item>, subscribers: seq<set<Item>>, h: string)
    requires feed in db.feeds && !Unstorable(db, feed, items, subscribers)
    ensures h in ForDedup(db, feed, items, subscribers) <==>
            exists i :: BringsNews(db, feed, items, i) && items[i].hash == h && !Kept(db, feed, subscribers, items[i])
  {
    if !db.feeds[feed].mode.Full? {
      RestIsNews(db, feed, items, subscribers);
      if h in ForDedup(db, feed, items, subscribers) {
        var x :| IsFirst(items, KnownAsked(db, feed), x) && x.hash == h && !Kept(db, feed, subscribers, x);
        var i :| FirstOf(items, i) && items[i] == x;
        assert !Blank(h);
        NewsIsFirst(db, feed, items, i);
      }
      if i :| BringsNews(db, feed, items, i) && items[i].hash == h && !Kept(db, feed, subscribers, items[i]) {
        NewsIsFirst(db, feed, items, i);
        assert IsFirst(items, KnownAsked(db, feed), items[i]);
      }
    }
  }

  lemma RememberedInColumns(db: Db, c: Db, feed: int, items: seq<Item>, subscribers: seq<set<Item>>)
    requires feed in db.feeds && !Unstorable(db, feed, items, subscribers) && c.dedup == db.dedup
    ensures HashesAreRest(db, RecordDedup(c, feed, ForDedup(db, feed, items, subscribers)), feed, items, subscribers)
  {
    var hashes := ForDedup(db, feed, items, subscribers);
    forall x ensures x in RecordDedup(c, feed, hashes).dedup <==>
                     x in db.dedup
                     || (x.feed == feed && exists i :: BringsNews(db, feed, items, i) && items[i].hash == x.hash && !Kept(db, feed, subscribers, items[i]))
    {
      RestInColumns(db, feed, items, subscribers, x.hash);
      assert x in (set h | h in hashes :: Seen(feed, h)) <==> x.feed == feed && x.hash in hashes by {
        if x.feed == feed && x.hash in hashes {
          assert x == Seen(feed, x.hash);
        }
      }
    }
  }

  lemma NewsBecomeEntries(db: Db, d: Db, feed: int, items: seq<Item>, subscribers: seq<set<Item>>, added: seq<Item>)
    requires feed in db.feeds
    requires forall x :: x in added <==> NewsItem(db, feed, items, x) && Kept(db, feed, subscribers, x)
    requires OnePerItem(db, d, added)
    ensures EntriesAreNews(db, d, feed, items, subscribers)
  {
    forall e | e in d.entries && e !in db.entries ensures FromItem(db, feed, items, subscribers, d.entries[e]) {
      assert Carries(d.entries[e], added);
      var x :| x in added && d.entries[e].hash == x.hash && d.entries[e].sortAt == x.sortAt;
      var i :| BringsNews(db, feed, items, i) && items[i] == x;
      assert KeptNews(db, feed, items, subscribers, i);
    }
    forall i | KeptNews(db, feed, items, subscribers, i) ensures HasNewEntry(db, d, items[i].hash) {
      assert NewsItem(db, feed, items, items[i]);
    }
  }

  /** What a poll that succeeds leaves behind, apart from the item fingerprint. */
  lemma StoredInColumns(db: Db, feed: int, items: seq<Item>, subscribers: seq<set<Item>>, now: int)
    requires Inv(db) && feed in db.feeds && Process(db, feed, items, subscribers, now).Ok?
    ensures var d := Process(db, feed, items, subscribers, now).value.db;
            && d.feeds == db.feeds && OldRowsStay(db, d) && NewRows(db, d, feed, now)
            && EntriesAreNews(db, d, feed, items, subscribers)
            && HashesAreRest(db, d, feed, items, subscribers)
  {
    var wanted, hashOnly := ForEntries(db, feed, items, subscribers), ForDedup(db, feed, items, subscribers);
    var relay := db.feeds[feed].mode.Relay?;
    var added := Fresh(wanted, Known(db, feed));
    FailsIff(db, feed, items, subscribers, now);
    if db.feeds[feed].mode.Full? {
      forall x | x in items ensures x.hash != "" {
      }
    }
    FreshSound(wanted, Known(db, feed));
    AddedAreNews(db, feed, items, subscribers);
    InsertedColumns(db, feed, added, relay, now);
    StoredIsInserted(db, feed, items, subscribers, now);
    var c := if added == [] then db else InsertRows(db, feed, added, relay, now);
    RememberedInColumns(db, c, feed, items, subscribers);
    NewsBecomeEntries(db, c, feed, items, subscribers, added);
    DedupApart(db, c, feed, hashOnly, items, subscribers, now);
  }

  /** The dedup rows change nothing about the entries. */
  lemma DedupApart(db: Db, c: Db, feed: int, hashes: set<string>, items: seq<Item>, subscribers: seq<set<Item>>, now: int)
    requires feed in db.feeds && OldRowsStay(db, c) && NewRows(db, c, feed, now) && EntriesAreNews(db, c, feed, items, subscribers)
    ensures var d := RecordDedup(c, feed, hashes);
            d.feeds == c.feeds && OldRowsStay(db, d) && NewRows(db, d, feed, now) && EntriesAreNews(db, d, feed, items, subscribers)
  {
  }

  // ------------------------------------------------------------- the whole poll

  /** Nothing is looked at when the items are those of the last poll. */
  predicate Skipped(db: Db, feed: int, items: seq<Item>)
    requires feed in db.feeds
  {
    ItemSet(items) != "" && ItemSet(items) == db.feeds[feed].itemsHash
  }

  /** A poll that is stored. */
  ghost predicate StoredPoll(db: Db, d: Db, feed: int, items: seq<Item>, subscribers: seq<set<Item>>, now: int)
    requires feed in db.feeds
  {
    && d.feeds == db.feeds[feed := db.feeds[feed].(itemsHash := ItemSet(items))]
    && OldRowsStay(db, d) && NewRows(db, d, feed, now)
    && EntriesAreNews(db, d, feed, items, subscribers)
    && HashesAreRest(db, d, feed, items, subscribers)
  }

  lemma PollInColumns(db: Db, feed: int, items: seq<Item>, subscribers: seq<set<Item>>, now: int)
    requires Inv(db) && feed in db.feeds
    ensures var d := Poll(db, feed, items, subscribers, now);
            if Skipped(db, feed, items) || Unstorable(db, feed, items, subscribers) then d == db
            else StoredPoll(db, d, feed, items, subscribers, now)
  {
    FailsIff(db, feed, items, subscribers, now);
    if !Skipped(db, feed, items) && !Unstorable(db, feed, items, subscribers) {
      StoredInColumns(db, feed, items, subscribers, now);
      FingerprintApart(db, Process(db, feed, items, subscribers, now).value.db, feed, items, subscribers, now);
    }
  }

  lemma FingerprintApart(db: Db, c: Db, feed: int, items: seq<Item>, subscribers: seq<set<Item>>, now: int)
    requires feed in db.feeds && c.feeds == db.feeds && OldRowsStay(db, c) && NewRows(db, c, feed, now)
    requires EntriesAreNews(db, c, feed, items, subscribers) && HashesAreRest(db, c, feed, items, subscribers)
    ensures StoredPoll(db, SetFingerprint(c, feed, ItemSet(items)), feed, items, subscribers, now)
  {
  }

  /** The hashes of the batch that count as new: a full poll asks for all of them, any other one for those with more than spaces. */
  ghost function NewHashes(db: Db, feed: int, items: seq<Item>): set<string>
    requires feed in db.feeds
  {
    set x | x in items && x.hash != ""
            && ((db.feeds[feed].mode != Full && Blank(x.hash))
                || (Seen(feed, x.hash) !in db.dedup && forall e :: e in db.entries && db.entries[e].feed == feed ==> db.entries[e].hash != x.hash))
      :: x.hash
  }

  lemma DistinctCount(items: seq<Item>)
    requires DistinctHashes(items)
    ensures |Store.HashSet(items)| == |items|
  {
    var hashes := Hashes(items);
    DistinctSize(hashes, |hashes|);
    assert hashes[..|hashes|] == hashes;
    forall h ensures h in Elements(hashes) <==> h in Store.HashSet(items) {
      if h in hashes {
        var i :| 0 <= i < |hashes| && hashes[i] == h;
        assert items[i] in items;
      }
      if x :| x in items && x.hash == h {
        var i :| 0 <= i < |items| && items[i] == x;
        assert hashes[i] == h;
      }
    }
    assert Elements(hashes) == Store.HashSet(items);
  }

  lemma UnknownInColumns(db: Db, feed: int, h: string)
    ensures h !in Known(db, feed) <==>
            Seen(feed, h) !in db.dedup && forall e :: e in db.entries && db.entries[e].feed == feed ==> db.entries[e].hash != h
  {
    if Seen(feed, h) in db.dedup {
      assert h in Known(db, feed);
    }
  }

  lemma FreshCount(items: seq<Item>, known: set<string>)
    ensures |Fresh(NonEmpty(items), known)| == |set x | x in items && x.hash != "" && x.hash !in known :: x.hash|
  {
    var r := Fresh(NonEmpty(items), known);
    NonEmptySound(items);
    FreshSound(NonEmpty(items), known);
    DistinctCount(r);
    forall h ensures h in Store.HashSet(r) <==> h in (set x | x in items && x.hash != "" && x.hash !in known :: x.hash) {
      if h != "" && h !in known {
        HashIsTaken(items, h, known);
      }
    }
    assert Store.HashSet(r) == (set x | x in items && x.hash != "" && x.hash !in known :: x.hash);
  }

  lemma CountInColumns(db: Db, feed: int, items: seq<Item>, subscribers: seq<set<Item>>, now: int)
    requires feed in db.feeds && !Unstorable(db, feed, items, subscribers)
    ensures var r := Process(db, feed, items, subscribers, now);
            r.Ok? && r.value.newItems == |NewHashes(db, feed, items)|
  {
    FailsIff(db, feed, items, subscribers, now);
    var known := if db.feeds[feed].mode.Full? then Known(db, feed) else KnownAsked(db, feed);
    FreshCount(items, known);
    if db.feeds[feed].mode.Full? {
      AllNonEmpty(items);
    }
    forall h ensures h !in Known(db, feed) <==>
                     Seen(feed, h) !in db.dedup && forall e :: e in db.entries && db.entries[e].feed == feed ==> db.entries[e].hash != h
    {
      UnknownInColumns(db, feed, h);
    }
    assert (set x | x in items && x.hash != "" && x.hash !in known :: x.hash) == NewHashes(db, feed, items);
  }
}
