/**
  The lists once more, in the columns of the tables: which entries they hold,
  in which order, and what a page and its total say, without the vocabulary the
  queries are built from.
 */
module EntryColumns {
  import opened Prelude
  import opened Catalog
  import opened CatalogInvariant
  import opened EntryLists

  /** Who is wanted, status by status and filter by filter. */
  lemma WantedInColumns(db: Db, user: int, status: string, c: Conds, e: int)
    requires status in {"", "unread", "read", "removed"}
    ensures e in Wanted(db, user, status, c) <==>
            && e in db.entries
            && Sub(user, db.entries[e].feed) in db.subs
            && (c.feed.Some? ==> db.entries[e].feed == c.feed.value)
            && (c.category.Some? ==> db.entries[e].feed in db.feeds && db.feeds[db.entries[e].feed].category == Some(c.category.value))
            && (c.labelId.Some? ==> EntryLabel(e, c.labelId.value) in db.entryLabels)
            && var k := UserEntry(e, user);
            && var hidden := db.entries[e].removedAt.Some? || (k in db.marks && db.marks[k].removed);
            && (c.starred.Some? ==> (c.starred.value <==> k in db.marks && db.marks[k].starred))
            && (status == "unread" ==> k in db.unread)
            && (status == "read" ==> k !in db.unread && !hidden)
            && (status == "removed" ==> k !in db.unread && hidden)
            && (status == "" ==> k in db.unread || !hidden)
  {
    if e in db.entries {
      StatusInColumns(db, user, status, e);
    }
  }

  lemma StatusInColumns(db: Db, user: int, status: string, e: int)
    requires e in db.entries && status in {"", "unread", "read", "removed"}
    ensures var k := UserEntry(e, user);
            var hidden := db.entries[e].removedAt.Some? || (k in db.marks && db.marks[k].removed);
            StatusPasses(db, user, status, e) <==>
              && (status == "unread" ==> k in db.unread)
              && (status == "read" ==> k !in db.unread && !hidden)
              && (status == "removed" ==> k !in db.unread && hidden)
              && (status == "" ==> k in db.unread || !hidden)
  {
  }

  // Both predicates spell the order out: which entries come before the i-th
  // one of the page, and where those lie that offset and limit leave out.

  /** ORDER BY sort_at DESC, id DESC: the page starts after `from` entries. */
  ghost predicate NewestFirst(db: Db, all: set<int>, from: nat, page: seq<int>) {
    && (forall i :: 0 <= i < |page| ==> page[i] in all && page[i] in db.entries)
    && (forall i, j :: 0 <= i < j < |page| ==>
          db.entries[page[i]].sortAt > db.entries[page[j]].sortAt || (db.entries[page[i]].sortAt == db.entries[page[j]].sortAt && page[i] > page[j]))
    && (forall i :: 0 <= i < |page| ==>
          |set x | x in all && x in db.entries && (db.entries[x].sortAt > db.entries[page[i]].sortAt
                   || (db.entries[x].sortAt == db.entries[page[i]].sortAt && x > page[i]))| == from + i)
    && (page != [] ==> forall e :: e in all && e !in page ==>
          e in db.entries
          && var first, last := page[0], page[|page| - 1];
          (db.entries[e].sortAt > db.entries[first].sortAt || (db.entries[e].sortAt == db.entries[first].sortAt && e > first)
           || db.entries[e].sortAt < db.entries[last].sortAt || (db.entries[e].sortAt == db.entries[last].sortAt && e < last)))
  }

  /** ORDER BY sort_at, id: the same the other way round. */
  ghost predicate OldestFirst(db: Db, all: set<int>, from: nat, page: seq<int>) {
    && (forall i :: 0 <= i < |page| ==> page[i] in all && page[i] in db.entries)
    && (forall i, j :: 0 <= i < j < |page| ==>
          db.entries[page[i]].sortAt < db.entries[page[j]].sortAt || (db.entries[page[i]].sortAt == db.entries[page[j]].sortAt && page[i] < page[j]))
    && (forall i :: 0 <= i < |page| ==>
          |set x | x in all && x in db.entries && (db.entries[x].sortAt < db.entries[page[i]].sortAt
                   || (db.entries[x].sortAt == db.entries[page[i]].sortAt && x < page[i]))| == from + i)
    && (page != [] ==> forall e :: e in all && e !in page ==>
          e in db.entries
          && var first, last := page[0], page[|page| - 1];
          (db.entries[e].sortAt < db.entries[first].sortAt || (db.entries[e].sortAt == db.entries[first].sortAt && e < first)
           || db.entries[e].sortAt > db.entries[last].sortAt || (db.entries[e].sortAt == db.entries[last].sortAt && e > last)))
  }

  lemma PrefixBefore(s: seq<int>, sortAt: map<int, int>, newestFirst: bool, i: nat, x: int)
    requires InOrder(s, sortAt, newestFirst) && i < |s|
    ensures x in s[..i] <==> x in s && Before(sortAt, newestFirst, x, s[i])
  {
    if x in s[..i] {
      var j :| 0 <= j < i && s[j] == x;
    }
    if x in s && Before(sortAt, newestFirst, x, s[i]) {
      var j :| 0 <= j < |s| && s[j] == x;
      assert j < i;
      assert s[..i][j] == x;
    }
  }

  /** A member of an ordered list that is not in a piece of it lies before or after the piece. */
  lemma OutsidePiece(s: seq<int>, sortAt: map<int, int>, newestFirst: bool, page: seq<int>, from: nat, e: int)
    requires InOrder(s, sortAt, newestFirst) && page != [] && from + |page| <= |s|
    requires forall i :: 0 <= i < |page| ==> page[i] == s[from + i]
    requires e in Elements(s) && e !in page
    ensures e in sortAt && page[0] in sortAt && page[|page| - 1] in sortAt
    ensures Before(sortAt, newestFirst, e, page[0]) || Before(sortAt, newestFirst, page[|page| - 1], e)
  {
    forall k | from <= k < from + |page| ensures s[k] in page {
      assert page[k - from] == s[from + (k - from)];
    }
    var k :| 0 <= k < |s| && s[k] == e;
    assert page[0] == s[from] && page[|page| - 1] == s[from + (|page| - 1)];
  }

  /** The rank of an entry is its position. */
  lemma RankInList(db: Db, all: set<int>, s: seq<int>, newestFirst: bool, i: nat)
    requires InOrder(s, SortKeys(db), newestFirst) && i < |s| && Elements(s) == all
    ensures s[i] in all && s[i] in db.entries
    ensures |set x | x in all && x in db.entries && Before(SortKeys(db), newestFirst, x, s[i])| == i
  {
    assert Distinct(s) by {
      assert forall j, k :: 0 <= j < k < |s| ==> Before(SortKeys(db), newestFirst, s[j], s[k]);
    }
    DistinctSize(s, i);
    forall x ensures x in Elements(s[..i]) <==> x in all && x in db.entries && Before(SortKeys(db), newestFirst, x, s[i]) {
      PrefixBefore(s, SortKeys(db), newestFirst, i, x);
    }
    assert (set x | x in all && x in db.entries && Before(SortKeys(db), newestFirst, x, s[i])) == Elements(s[..i]);
  }

  lemma PieceNewestFirst(db: Db, all: set<int>, s: seq<int>, from: nat, page: seq<int>)
    requires InOrder(s, SortKeys(db), true) && Elements(s) == all && (page != [] ==> from + |page| <= |s|)
    requires forall i :: 0 <= i < |page| ==> page[i] == s[from + i]
    ensures NewestFirst(db, all, from, page)
  {
    forall i | 0 <= i < |page|
      ensures page[i] in all && page[i] in db.entries
      ensures |set x | x in all && x in db.entries && (db.entries[x].sortAt > db.entries[page[i]].sortAt
                       || (db.entries[x].sortAt == db.entries[page[i]].sortAt && x > page[i]))| == from + i
    {
      RankInList(db, all, s, true, from + i);
      assert (set x | x in all && x in db.entries && (db.entries[x].sortAt > db.entries[page[i]].sortAt
                      || (db.entries[x].sortAt == db.entries[page[i]].sortAt && x > page[i])))
          == (set x | x in all && x in db.entries && Before(SortKeys(db), true, x, s[from + i]));
    }
    forall i, j | 0 <= i < j < |page| ensures Before(SortKeys(db), true, page[i], page[j]) {
      assert Before(SortKeys(db), true, s[from + i], s[from + j]);
    }
    forall e | e in all && e !in page && page != [] ensures e in db.entries && (Before(SortKeys(db), true, e, page[0]) || Before(SortKeys(db), true, page[|page| - 1], e)) {
      OutsidePiece(s, SortKeys(db), true, page, from, e);
    }
  }

  lemma PieceOldestFirst(db: Db, all: set<int>, s: seq<int>, from: nat, page: seq<int>)
    requires InOrder(s, SortKeys(db), false) && Elements(s) == all && (page != [] ==> from + |page| <= |s|)
    requires forall i :: 0 <= i < |page| ==> page[i] == s[from + i]
    ensures OldestFirst(db, all, from, page)
  {
    forall i | 0 <= i < |page|
      ensures page[i] in all && page[i] in db.entries
      ensures |set x | x in all && x in db.entries && (db.entries[x].sortAt < db.entries[page[i]].sortAt
                       || (db.entries[x].sortAt == db.entries[page[i]].sortAt && x < page[i]))| == from + i
    {
      RankInList(db, all, s, false, from + i);
      assert (set x | x in all && x in db.entries && (db.entries[x].sortAt < db.entries[page[i]].sortAt
                      || (db.entries[x].sortAt == db.entries[page[i]].sortAt && x < page[i])))
          == (set x | x in all && x in db.entries && Before(SortKeys(db), false, x, s[from + i]));
    }
    forall i, j | 0 <= i < j < |page| ensures Before(SortKeys(db), false, page[i], page[j]) {
      assert Before(SortKeys(db), false, s[from + i], s[from + j]);
    }
    forall e | e in all && e !in page && page != [] ensures e in db.entries && (Before(SortKeys(db), false, e, page[0]) || Before(SortKeys(db), false, page[|page| - 1], e)) {
      OutsidePiece(s, SortKeys(db), false, page, from, e);
    }
  }

  /** ORDER BY, LIMIT and OFFSET over any set of entries. */
  lemma SliceInColumns(db: Db, all: set<int>, newestFirst: bool, n: nat, from: nat)
    requires all <= db.entries.Keys
    ensures var s := Ordered(all, SortKeys(db), newestFirst);
            var page := Slice(s, from, n);
            && |s| == |all| && |page| == (if |all| <= from then 0 else if |all| - from < n then |all| - from else n)
            && (if newestFirst then NewestFirst(db, all, from, page) else OldestFirst(db, all, from, page))
  {
    OrderedSound(all, SortKeys(db), newestFirst);
    var s := Ordered(all, SortKeys(db), newestFirst);
    if newestFirst {
      PieceNewestFirst(db, all, s, from, Slice(s, from, n));
    } else {
      PieceOldestFirst(db, all, s, from, Slice(s, from, n));
    }
  }

  /** A list call fails for an unknown status and for a starred list narrowed by feed or category, and only then. */
  lemma RefusedInColumns(db: Db, user: int, status: Option<string>, c: Conds, newestFirst: bool, limit: int, offset: int, withTotal: bool)
    requires Inv(db)
    ensures var st := if status.Some? then status.value else "";
            ListEntries(db, user, status, c, newestFirst, limit, offset, withTotal).Err? <==>
              st !in {"", "unread", "read", "removed"}
              || (st in {"", "read"} && c.starred == Some(true) && (c.feed.Some? || c.category.Some?))
  {
    ListEntriesIsExact(db, user, status, c, newestFirst, limit, offset, withTotal);
  }

  /**
    A list call in columns: the page of the wanted entries in the order asked
    for, as long as limit and list allow, and a total that counts up to its cap
    or tells whether something follows.
   */
  lemma ListEntriesInColumns(db: Db, user: int, status: Option<string>, c: Conds, newestFirst: bool, limit: int, offset: int, withTotal: bool)
    requires Inv(db) && ListEntries(db, user, status, c, newestFirst, limit, offset, withTotal).Ok?
    ensures var (page, total) := ListEntries(db, user, status, c, newestFirst, limit, offset, withTotal).value;
            var all := Wanted(db, user, if status.Some? then status.value else "", c);
            var n := if limit <= 0 then 100 else if limit > 1000 then 1000 else limit;
            var from := if offset < 0 then 0 else offset;
            && (if newestFirst then NewestFirst(db, all, from, page) else OldestFirst(db, all, from, page))
            && |page| == (if |all| <= from then 0 else if |all| - from < n then |all| - from else n)
            && (withTotal ==> total == if |all| < 10001 then |all| else 10001)
            && (!withTotal ==> (total > from + n <==> |all| > from + n) && (from <= |all| <= from + n ==> total == |all|))
  {
    ListEntriesIsExact(db, user, status, c, newestFirst, limit, offset, withTotal);
    SliceInColumns(db, Wanted(db, user, if status.Some? then status.value else "", c), newestFirst, EffectiveLimit(limit), Max(offset, 0));
  }
}
