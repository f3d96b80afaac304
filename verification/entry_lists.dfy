/**
  The lists of a reader: which table drives each of them, and that whatever
  table it is, the rows and the pages are those of the plain definition.
 */
module EntryLists {
  import opened Prelude
  import opened Catalog
  import opened CatalogInvariant
  import opened CatalogRuns
  import opened EntryUpdates

  datatype Conds = Conds(feed: Option<int>, category: Option<int>, starred: Option<bool>, labelId: Option<int>)

  // --------------------------------------------------------- the plain definition

  predicate FeedPasses(db: Db, c: Conds, feed: int) {
    (c.feed.None? || feed == c.feed.value) && (c.category.None? || feed in FeedsOf(db, c.category.value))
  }

  predicate LabelPasses(db: Db, c: Conds, entry: int) {
    c.labelId.None? || EntryLabel(entry, c.labelId.value) in db.entryLabels
  }

  predicate StarPasses(db: Db, user: int, c: Conds, entry: int) {
    c.starred.None? || Starred(db, user, entry) == c.starred.value
  }

  /** No filter means everything that is not removed. */
  predicate StatusPasses(db: Db, user: int, status: string, entry: int) {
    if status == UNREAD then StatusOf(db, user, entry) == IsUnread
    else if status == READ then StatusOf(db, user, entry) == IsRead
    else if status == REMOVED then StatusOf(db, user, entry) == IsRemoved
    else StatusOf(db, user, entry) != IsRemoved
  }

  /** The entries of the reader's feeds that pass every filter. */
  function Wanted(db: Db, user: int, status: string, c: Conds): set<int> {
    set e | e in db.entries && Subscribed(db, user, e) && StatusPasses(db, user, status, e)
            && FeedPasses(db, c, db.entries[e].feed) && StarPasses(db, user, c, e) && LabelPasses(db, c, e)
  }

  function StatusText(status: Option<string>): string {
    if status.Some? then status.value else ""
  }

  // ------------------------------------------------------------------ the queries

  /** The rows of a list with the sort_at column of the table that drives it. */
  datatype Scope = Scope(rows: set<int>, sortAt: map<int, int>, twoStage: bool)

  function ByEntries(db: Db, rows: set<int>): Scope
    requires rows <= db.entries.Keys
  {
    Scope(rows, map e | e in rows :: db.entries[e].sortAt, true)
  }

  /** whereEntries with the state subqueries of the status. */
  function EntryRows(db: Db, user: int, status: string, c: Conds): set<int> {
    set e | e in db.entries
            && FeedPasses(db, c, db.entries[e].feed)
            && Sub(user, db.entries[e].feed) in db.subs
            && (if status == REMOVED then MarkedRemoved(db, user, e) || db.entries[e].removedAt.Some?
                else db.entries[e].removedAt.None? && !MarkedRemoved(db, user, e)
                     && (status == READ ==> UserEntry(e, user) !in db.unread))
            && StarPasses(db, user, c, e) && LabelPasses(db, c, e)
  }

  /** entryFromUnread: feed and category read the copied feed_id. */
  function UnreadRows(db: Db, user: int, c: Conds): set<UserEntry> {
    set k | k in db.unread && k.user == user && k.entry in db.entries
            && FeedPasses(db, c, db.unread[k].feed) && StarPasses(db, user, c, k.entry) && LabelPasses(db, c, k.entry)
  }

  /** entryFromExceptions; feed and category are those a copied feed_id would give. */
  function StarredRows(db: Db, user: int, status: string, c: Conds): set<UserEntry> {
    set k | k in db.marks && k.user == user && k.entry in db.entries
            && db.marks[k].starred && !db.marks[k].removed && db.entries[k.entry].removedAt.None?
            && FeedPasses(db, c, db.entries[k.entry].feed)
            && (status == READ ==> k !in db.unread)
            && LabelPasses(db, c, k.entry)
  }

  function EntriesOf(keys: set<UserEntry>): set<int> {
    set k | k in keys :: k.entry
  }

  predicate ListedByStars(status: string, c: Conds) {
    (status == "" || status == READ) && c.starred == Some(true)
  }

  /**
    entryListScope. The starred list renders feed and category as conditions
    on ue.feed_id, a column user_entries does not have, so such a query is
    refused by the database.
   */
  function EntryListScope(db: Db, user: int, status: Option<string>, c: Conds): Result<Scope, Error> {
    var st := StatusText(status);
    if ListedByStars(st, c) then
      if c.feed.Some? || c.category.Some? then Err(UndefinedColumn)
      else
        var keys := StarredRows(db, user, st, c);
        Ok(Scope(EntriesOf(keys), map e | e in EntriesOf(keys) :: MarkOf(db, user, e), false))
    else if st == "" || st == READ || st == REMOVED then Ok(ByEntries(db, EntryRows(db, user, st, c)))
    else if st == UNREAD then
      var keys := UnreadRows(db, user, c);
      Ok(Scope(EntriesOf(keys), map e | e in EntriesOf(keys) :: UnreadOf(db, user, e), false))
    else Err(InvalidStatus)
  }

  function MarkOf(db: Db, user: int, e: int): int {
    if UserEntry(e, user) in db.marks then db.marks[UserEntry(e, user)].sortAt else 0
  }

  function UnreadOf(db: Db, user: int, e: int): int {
    if UserEntry(e, user) in db.unread then db.unread[UserEntry(e, user)].sortAt else 0
  }

  // ------------------------------------------------------------- the rows are right

  lemma EntryRowsExact(db: Db, user: int, status: string, c: Conds)
    requires Inv(db) && (status == "" || status == READ || status == REMOVED)
    ensures EntryRows(db, user, status, c) == Wanted(db, user, status, c)
  {
  }

  lemma UnreadRowsExact(db: Db, user: int, c: Conds)
    requires Inv(db)
    ensures EntriesOf(UnreadRows(db, user, c)) == Wanted(db, user, UNREAD, c)
    ensures forall e :: e in Wanted(db, user, UNREAD, c) ==> UnreadOf(db, user, e) == db.entries[e].sortAt
  {
  }

  /** With a feed_id to narrow by, the starred list would be exact in every case. */
  lemma StarredRowsExact(db: Db, user: int, status: string, c: Conds)
    requires Inv(db) && ListedByStars(status, c)
    ensures EntriesOf(StarredRows(db, user, status, c)) == Wanted(db, user, status, c)
    ensures forall e :: e in Wanted(db, user, status, c) ==> MarkOf(db, user, e) == db.entries[e].sortAt
  {
  }

  /** When the database refuses a list. */
  predicate Refused(status: Option<string>, c: Conds) {
    var st := StatusText(status);
    (st != "" && st != UNREAD && st != READ && st != REMOVED)
    || (ListedByStars(st, c) && (c.feed.Some? || c.category.Some?))
  }

  /**
    Whatever table drives it, a list that runs at all has exactly the wanted
    rows and orders them by the entry's own sort_at; it fails exactly for an
    unknown status and for starred lists narrowed by feed or category.
   */
  lemma ScopeIsExact(db: Db, user: int, status: Option<string>, c: Conds)
    requires Inv(db)
    ensures EntryListScope(db, user, status, c).Err? <==> Refused(status, c)
    ensures EntryListScope(db, user, status, c).Ok? ==>
              var sc := EntryListScope(db, user, status, c).value;
              && sc.rows == Wanted(db, user, StatusText(status), c)
              && sc.rows == sc.sortAt.Keys && sc.rows <= db.entries.Keys
              && forall e :: e in sc.rows ==> sc.sortAt[e] == db.entries[e].sortAt
  {
    var st := StatusText(status);
    if EntryListScope(db, user, status, c).Ok? {
      if ListedByStars(st, c) {
        StarredRowsExact(db, user, st, c);
      } else if st == UNREAD {
        UnreadRowsExact(db, user, c);
      } else {
        EntryRowsExact(db, user, st, c);
      }
    }
  }

  /** Why the invariant is needed: the orphan removal shows an entry in the unread list and hides it from the default one. */
  lemma OrphanSplitsTheLists()
    ensures var d := SubscribeOne(RemoveKeepPayload(LONELY, 7, 1, 20), 7, 1);
            var all := Conds(None, None, None, None);
            d.Ok? && 1 in EntriesOf(UnreadRows(d.value, 7, all)) && 1 !in EntryRows(d.value, 7, "", all)
  {
    OrphanRemovalResurfaces();
    OrphanRemovalLeft();
    var d := SubscribeOne(RemoveKeepPayload(LONELY, 7, 1, 20), 7, 1).value;
    assert UserEntry(1, 7) in UnreadRows(d, 7, Conds(None, None, None, None));
  }

  // ----------------------------------------------------------------------- pages

  /** The strict order (sort_at, id), either way round. */
  predicate Before(sortAt: map<int, int>, newestFirst: bool, a: int, b: int)
    requires a in sortAt && b in sortAt
  {
    if newestFirst then sortAt[a] > sortAt[b] || (sortAt[a] == sortAt[b] && a > b)
    else sortAt[a] < sortAt[b] || (sortAt[a] == sortAt[b] && a < b)
  }

  ghost predicate InOrder(s: seq<int>, sortAt: map<int, int>, newestFirst: bool) {
    (forall i :: 0 <= i < |s| ==> s[i] in sortAt)
    && (forall i, j :: 0 <= i < j < |s| ==> Before(sortAt, newestFirst, s[i], s[j]))
  }

  ghost predicate IsFirst(m: int, ids: set<int>, sortAt: map<int, int>, newestFirst: bool)
    requires ids <= sortAt.Keys
  {
    m in ids && forall x :: x in ids && x != m ==> Before(sortAt, newestFirst, m, x)
  }

  lemma {:induction false} FirstExists(ids: set<int>, sortAt: map<int, int>, newestFirst: bool)
    requires ids != {} && ids <= sortAt.Keys
    ensures exists m :: IsFirst(m, ids, sortAt, newestFirst)
    decreases |ids|
  {
    var m := Pick(ids);
    if ids == {m} {
      assert IsFirst(m, ids, sortAt, newestFirst);
    } else {
      FirstExists(ids - {m}, sortAt, newestFirst);
      var f :| IsFirst(f, ids - {m}, sortAt, newestFirst);
      assert ids == (ids - {m}) + {m};
      if Before(sortAt, newestFirst, f, m) {
        assert IsFirst(f, ids, sortAt, newestFirst);
      } else {
        assert IsFirst(m, ids, sortAt, newestFirst);
      }
    }
  }

  /** ORDER BY over a set of rows. */
  ghost function Ordered(ids: set<int>, sortAt: map<int, int>, newestFirst: bool): seq<int>
    requires ids <= sortAt.Keys
    decreases |ids|
  {
    if ids == {} then []
    else
      FirstExists(ids, sortAt, newestFirst);
      var m :| IsFirst(m, ids, sortAt, newestFirst);
      [m] + Ordered(ids - {m}, sortAt, newestFirst)
  }

  /** Prepending the first element. */
  lemma OrderedCons(m: int, rest: seq<int>, ids: set<int>, sortAt: map<int, int>, newestFirst: bool)
    requires ids <= sortAt.Keys && IsFirst(m, ids, sortAt, newestFirst)
    requires InOrder(rest, sortAt, newestFirst) && Elements(rest) == ids - {m}
    ensures InOrder([m] + rest, sortAt, newestFirst) && Elements([m] + rest) == ids
  {
    var s := [m] + rest;
    forall i, j | 0 <= i < j < |s| ensures Before(sortAt, newestFirst, s[i], s[j]) {
      assert s[j] == rest[j - 1] && rest[j - 1] in Elements(rest);
      if i > 0 {
        assert s[i] == rest[i - 1];
      }
    }
    forall x ensures x in Elements(s) <==> x in ids {
      assert x in s <==> x == m || x in rest;
      assert x in Elements(rest) <==> x in rest;
    }
  }

  lemma {:induction false} OrderedSound(ids: set<int>, sortAt: map<int, int>, newestFirst: bool)
    requires ids <= sortAt.Keys
    ensures InOrder(Ordered(ids, sortAt, newestFirst), sortAt, newestFirst)
    ensures Elements(Ordered(ids, sortAt, newestFirst)) == ids && |Ordered(ids, sortAt, newestFirst)| == |ids|
    decreases |ids|
  {
    if ids != {} {
      FirstExists(ids, sortAt, newestFirst);
      var m :| IsFirst(m, ids, sortAt, newestFirst) && Ordered(ids, sortAt, newestFirst) == [m] + Ordered(ids - {m}, sortAt, newestFirst);
      OrderedSound(ids - {m}, sortAt, newestFirst);
      OrderedCons(m, Ordered(ids - {m}, sortAt, newestFirst), ids, sortAt, newestFirst);
    }
  }

  lemma OrderedTail(s: seq<int>, sortAt: map<int, int>, newestFirst: bool)
    requires s != [] && InOrder(s, sortAt, newestFirst)
    ensures InOrder(s[1..], sortAt, newestFirst) && Elements(s[1..]) == Elements(s) - {s[0]}
  {
  }

  /** The first element of a set is the head of the ordered sequence. */
  lemma HeadIsFirst(s: seq<int>, m: int, sortAt: map<int, int>, newestFirst: bool)
    requires s != [] && InOrder(s, sortAt, newestFirst)
    requires Elements(s) <= sortAt.Keys && IsFirst(m, Elements(s), sortAt, newestFirst)
    ensures m == s[0]
  {
    var i :| 0 <= i < |s| && s[i] == m;
    assert s[0] in Elements(s);
    if i > 0 {
      assert Before(sortAt, newestFirst, s[0], s[i]);
    }
  }

  /** An ordered sequence is the only one with its elements. */
  lemma {:induction false} OrderedUnique(s: seq<int>, sortAt: map<int, int>, newestFirst: bool)
    requires InOrder(s, sortAt, newestFirst)
    ensures Elements(s) <= sortAt.Keys && s == Ordered(Elements(s), sortAt, newestFirst)
    decreases |s|
  {
    if s != [] {
      var ids := Elements(s);
      assert s[0] in ids;
      FirstExists(ids, sortAt, newestFirst);
      var m :| IsFirst(m, ids, sortAt, newestFirst) && Ordered(ids, sortAt, newestFirst) == [m] + Ordered(ids - {m}, sortAt, newestFirst);
      HeadIsFirst(s, m, sortAt, newestFirst);
      OrderedTail(s, sortAt, newestFirst);
      OrderedUnique(s[1..], sortAt, newestFirst);
    }
  }

  /** LIMIT limit OFFSET offset. */
  function Slice(s: seq<int>, offset: nat, limit: nat): seq<int> {
    if offset >= |s| then [] else s[offset..Min(|s|, offset + limit)]
  }

  function SortKeys(db: Db): map<int, int> {
    map e | e in db.entries :: db.entries[e].sortAt
  }

  /** entryScope.page: one query, or ids first and the rows attached and ordered again. */
  ghost function Page(db: Db, sc: Scope, newestFirst: bool, limit: nat, offset: nat): seq<int>
    requires sc.rows <= sc.sortAt.Keys
  {
    var ids := Slice(Ordered(sc.rows, sc.sortAt, newestFirst), offset, limit);
    if !sc.twoStage then ids
    else
      OrderedSound(sc.rows, sc.sortAt, newestFirst);
      assert forall x :: x in ids ==> x in Elements(Ordered(sc.rows, sc.sortAt, newestFirst));
      Ordered(Elements(ids) * db.entries.Keys, sc.sortAt, newestFirst)
  }

  /** Only the keys of the sorted rows matter. */
  lemma {:induction false} OrderedByCopies(ids: set<int>, a: map<int, int>, b: map<int, int>, newestFirst: bool)
    requires ids <= a.Keys && ids <= b.Keys && forall e :: e in ids ==> a[e] == b[e]
    ensures Ordered(ids, a, newestFirst) == Ordered(ids, b, newestFirst)
  {
    OrderedSound(ids, a, newestFirst);
    var s := Ordered(ids, a, newestFirst);
    forall i | 0 <= i < |s| ensures s[i] in ids {
      assert s[i] in Elements(s);
    }
    OrderedUnique(s, b, newestFirst);
  }

  /** The entries a list promises, in the order it promises. */
  ghost function Listed(db: Db, user: int, status: Option<string>, c: Conds, newestFirst: bool): seq<int> {
    Ordered(Wanted(db, user, StatusText(status), c), SortKeys(db), newestFirst)
  }

  lemma SliceInOrder(s: seq<int>, sortAt: map<int, int>, newestFirst: bool, offset: nat, limit: nat)
    requires InOrder(s, sortAt, newestFirst)
    ensures InOrder(Slice(s, offset, limit), sortAt, newestFirst) && Elements(Slice(s, offset, limit)) <= Elements(s)
  {
    var page := Slice(s, offset, limit);
    forall i | 0 <= i < |page| ensures page[i] == s[offset + i] {
    }
  }

  lemma PageOfExactRows(db: Db, sc: Scope, newestFirst: bool, limit: nat, offset: nat)
    requires sc.rows <= sc.sortAt.Keys && sc.rows <= db.entries.Keys
    requires forall e :: e in sc.rows ==> sc.sortAt[e] == db.entries[e].sortAt
    ensures Page(db, sc, newestFirst, limit, offset) == Slice(Ordered(sc.rows, SortKeys(db), newestFirst), offset, limit)
  {
    OrderedByCopies(sc.rows, sc.sortAt, SortKeys(db), newestFirst);
    OrderedSound(sc.rows, sc.sortAt, newestFirst);
    SliceInOrder(Ordered(sc.rows, sc.sortAt, newestFirst), sc.sortAt, newestFirst, offset, limit);
    var ids := Slice(Ordered(sc.rows, sc.sortAt, newestFirst), offset, limit);
    assert Elements(ids) * db.entries.Keys == Elements(ids);
    OrderedUnique(ids, sc.sortAt, newestFirst);
  }

  /** Every page of every list is the slice of the wanted entries in the entries' own order. */
  lemma PageIsSlice(db: Db, user: int, status: Option<string>, c: Conds, newestFirst: bool, limit: nat, offset: nat)
    requires Inv(db) && !Refused(status, c)
    ensures var r := EntryListScope(db, user, status, c);
            r.Ok? && r.value.rows <= r.value.sortAt.Keys
            && Page(db, r.value, newestFirst, limit, offset) == Slice(Listed(db, user, status, c, newestFirst), offset, limit)
  {
    ScopeIsExact(db, user, status, c);
    PageOfExactRows(db, EntryListScope(db, user, status, c).value, newestFirst, limit, offset);
  }

  // ------------------------------------------------------------------ listEntries

  const LIST_PAGE_CAP: nat := 1000
  const LIST_TOTAL_CAP: nat := 10001

  function EffectiveLimit(limit: int): nat {
    if limit <= 0 then 100 else if limit > LIST_PAGE_CAP then LIST_PAGE_CAP else limit
  }

  /** trimPage: one row more than asked for says that there is a next page. */
  function TrimPage(offset: nat, limit: nat, page: seq<int>): (seq<int>, nat) {
    if |page| > limit then (page[..limit], offset + limit + 1) else (page, offset + |page|)
  }

  /** The page and the total for a scope that runs. */
  ghost function PageAndTotal(db: Db, sc: Scope, newestFirst: bool, n: nat, from: nat, withTotal: bool): (seq<int>, nat)
    requires sc.rows <= sc.sortAt.Keys
  {
    if withTotal then (Page(db, sc, newestFirst, n, from), Min(|sc.rows|, LIST_TOTAL_CAP))
    else TrimPage(from, n, Page(db, sc, newestFirst, n + 1, from))
  }

  ghost function ListEntries(db: Db, user: int, status: Option<string>, c: Conds, newestFirst: bool,
                             limit: int, offset: int, withTotal: bool): Result<(seq<int>, nat), Error>
    requires Inv(db)
  {
    var r := EntryListScope(db, user, status, c);
    ScopeIsExact(db, user, status, c);
    if r.Err? then Err(r.error)
    else Ok(PageAndTotal(db, r.value, newestFirst, EffectiveLimit(limit), Max(offset, 0), withTotal))
  }

  /** A total is exact up to the cap, or exceeds offset + limit exactly when something follows the page. */
  predicate Honest(total: nat, all: nat, from: nat, n: nat, withTotal: bool) {
    if withTotal then total == Min(all, LIST_TOTAL_CAP)
    else (total > from + n <==> all > from + n) && (from <= all <= from + n ==> total == all)
  }

  lemma TrimPageIsHonest(s: seq<int>, from: nat, n: nat)
    ensures var (page, total) := TrimPage(from, n, Slice(s, from, n + 1));
            page == Slice(s, from, n) && Honest(total, |s|, from, n, false)
  {
  }

  lemma PageAndTotalAreExact(db: Db, sc: Scope, newestFirst: bool, n: nat, from: nat, withTotal: bool)
    requires sc.rows <= sc.sortAt.Keys && sc.rows <= db.entries.Keys
    requires forall e :: e in sc.rows ==> sc.sortAt[e] == db.entries[e].sortAt
    ensures var (page, total) := PageAndTotal(db, sc, newestFirst, n, from, withTotal);
            var s := Ordered(sc.rows, SortKeys(db), newestFirst);
            page == Slice(s, from, n) && Honest(total, |s|, from, n, withTotal)
  {
    OrderedSound(sc.rows, SortKeys(db), newestFirst);
    PageOfExactRows(db, sc, newestFirst, if withTotal then n else n + 1, from);
    TrimPageIsHonest(Ordered(sc.rows, SortKeys(db), newestFirst), from, n);
  }

  /** What a caller of listEntries sees: the asked-for slice and an honest total. */
  lemma ListEntriesIsExact(db: Db, user: int, status: Option<string>, c: Conds, newestFirst: bool, limit: int, offset: int, withTotal: bool)
    requires Inv(db)
    ensures var r := ListEntries(db, user, status, c, newestFirst, limit, offset, withTotal);
            var s := Listed(db, user, status, c, newestFirst);
            && (r.Err? <==> Refused(status, c))
            && (r.Ok? ==> r.value.0 == Slice(s, Max(offset, 0), EffectiveLimit(limit))
                          && Honest(r.value.1, |s|, Max(offset, 0), EffectiveLimit(limit), withTotal))
  {
    ScopeIsExact(db, user, status, c);
    var r := EntryListScope(db, user, status, c);
    if r.Ok? {
      PageAndTotalAreExact(db, r.value, newestFirst, EffectiveLimit(limit), Max(offset, 0), withTotal);
    }
  }
}
