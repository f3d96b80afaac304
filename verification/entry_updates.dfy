/** What the status writes mean for what each reader sees. */
module EntryUpdates {
  import opened Prelude
  import opened Catalog
  import opened CatalogInvariant

  const UNREAD := "unread"
  const READ := "read"
  const REMOVED := "removed"

  /** The status and the star of an entry as one reader sees it. */
  datatype View = View(status: Status, starred: bool)

  function Shown(db: Db, user: int, entry: int): View {
    View(StatusOf(db, user, entry), Starred(db, user, entry))
  }

  /** Entries a reader can still change: read through a subscription and not removed. */
  predicate Active(db: Db, user: int, entry: int) {
    Subscribed(db, user, entry) && StatusOf(db, user, entry) != IsRemoved
  }

  // ------------------------------------------------------------ the statements

  /** The statement of a trimmed status; the empty status runs none. */
  function WithStatus(db: Db, user: int, ids: set<int>, status: string, now: int): Db {
    if status == READ then MarkRead(db, user, ids)
    else if status == UNREAD then MarkUnread(db, user, ids)
    else if status == REMOVED then Remove(db, user, ids, now)
    else db
  }

  function WithStar(db: Db, user: int, ids: set<int>, starred: Option<bool>, now: int): Db {
    match starred
    case None => db
    case Some(true) => Star(db, user, ids, now)
    case Some(false) => Unstar(db, user, ids)
  }

  /** The ids the status statement of a bulk update returns. */
  function StatusReturns(db: Db, user: int, ids: set<int>, status: string): set<int> {
    if status == READ then set e | e in ids && UserEntry(e, user) in db.unread
    else if status == UNREAD then UnreadTargets(db, user, ids)
    else {}
  }

  predicate NewlyStarred(db: Db, user: int, e: int) {
    var k := UserEntry(e, user);
    k !in db.marks || (!db.marks[k].starred && !db.marks[k].removed)
  }

  function StarReturns(db: Db, user: int, ids: set<int>, starred: Option<bool>): set<int> {
    match starred
    case None => {}
    case Some(true) => set e | e in StarTargets(db, user, ids) && NewlyStarred(db, user, e)
    case Some(false) =>
      set e | e in ids && UserEntry(e, user) in db.marks && db.marks[UserEntry(e, user)].starred && !db.marks[UserEntry(e, user)].removed
  }

  // --------------------------------------------------------------- their meaning

  function Asked(status: string, was: Status): Status {
    if status == READ then IsRead else if status == UNREAD then IsUnread else if status == REMOVED then IsRemoved else was
  }

  /** What the invariant says of one key. */
  ghost predicate RowsAt(db: Db, k: UserEntry) {
    (k in db.unread ==> UnreadRowSound(db, k)) && (k in db.marks ==> MarkSound(db, k))
  }

  lemma RowsAtKey(db: Db, k: UserEntry)
    requires Inv(db)
    ensures RowsAt(db, k)
  {
  }

  predicate Hit(db: Db, user: int, ids: set<int>, u: int, e: int) {
    u == user && e in ids && Active(db, u, e)
  }

  lemma MarkReadMeaning(db: Db, user: int, ids: set<int>, u: int, e: int)
    requires e in db.entries && RowsAt(db, UserEntry(e, u))
    ensures var d := MarkRead(db, user, ids);
            Shown(d, u, e) == if Hit(db, user, ids, u, e) then Shown(db, u, e).(status := IsRead) else Shown(db, u, e)
  {
  }

  lemma MarkUnreadMeaning(db: Db, user: int, ids: set<int>, u: int, e: int)
    requires e in db.entries && RowsAt(db, UserEntry(e, u))
    ensures var d := MarkUnread(db, user, ids);
            Shown(d, u, e) == if Hit(db, user, ids, u, e) then Shown(db, u, e).(status := IsUnread) else Shown(db, u, e)
  {
  }

  lemma RemoveMeaning(db: Db, user: int, ids: set<int>, now: int, u: int, e: int)
    requires e in db.entries && RowsAt(db, UserEntry(e, u))
    ensures var d := Remove(db, user, ids, now);
            Shown(d, u, e) == if Hit(db, user, ids, u, e) then Shown(db, u, e).(status := IsRemoved) else Shown(db, u, e)
  {
  }

  lemma StarMeaning(db: Db, user: int, ids: set<int>, now: int, u: int, e: int)
    requires e in db.entries && RowsAt(db, UserEntry(e, u))
    ensures var d := Star(db, user, ids, now);
            Shown(d, u, e) == if Hit(db, user, ids, u, e) then Shown(db, u, e).(starred := true) else Shown(db, u, e)
  {
  }

  lemma UnstarMeaning(db: Db, user: int, ids: set<int>, u: int, e: int)
    requires e in db.entries && RowsAt(db, UserEntry(e, u))
    ensures var d := Unstar(db, user, ids);
            Shown(d, u, e) == if Hit(db, user, ids, u, e) then Shown(db, u, e).(starred := false) else Shown(db, u, e)
  {
  }

  lemma StatusMeaning(db: Db, user: int, ids: set<int>, status: string, now: int, u: int, e: int)
    requires e in db.entries && RowsAt(db, UserEntry(e, u))
    ensures Shown(WithStatus(db, user, ids, status, now), u, e) ==
            if Hit(db, user, ids, u, e) then Shown(db, u, e).(status := Asked(status, StatusOf(db, u, e))) else Shown(db, u, e)
  {
    MarkReadMeaning(db, user, ids, u, e);
    MarkUnreadMeaning(db, user, ids, u, e);
    RemoveMeaning(db, user, ids, now, u, e);
  }

  lemma StarWriteMeaning(db: Db, user: int, ids: set<int>, starred: Option<bool>, now: int, u: int, e: int)
    requires e in db.entries && RowsAt(db, UserEntry(e, u))
    ensures Shown(WithStar(db, user, ids, starred, now), u, e) ==
            if starred.Some? && Hit(db, user, ids, u, e) then Shown(db, u, e).(starred := starred.value) else Shown(db, u, e)
  {
    StarMeaning(db, user, ids, now, u, e);
    UnstarMeaning(db, user, ids, u, e);
  }

  lemma StatusKeeps(db: Db, user: int, ids: set<int>, status: string, now: int)
    requires Inv(db)
    ensures Inv(WithStatus(db, user, ids, status, now)) && WithStatus(db, user, ids, status, now).entries == db.entries
    ensures WithStatus(db, user, ids, status, now).subs == db.subs
  {
    if status == READ {
      MarkReadKeeps(db, user, ids);
    } else if status == UNREAD {
      MarkUnreadKeeps(db, user, ids);
    } else if status == REMOVED {
      RemoveKeeps(db, user, ids, now);
    }
  }

  lemma StarWriteKeeps(db: Db, user: int, ids: set<int>, starred: Option<bool>, now: int)
    requires Inv(db)
    ensures Inv(WithStar(db, user, ids, starred, now)) && WithStar(db, user, ids, starred, now).entries == db.entries
  {
    if starred == Some(true) {
      StarKeeps(db, user, ids, now);
    } else if starred == Some(false) {
      UnstarKeeps(db, user, ids);
    }
  }

  /** A status write and a star write, one after the other or in one statement. */
  function Updated(db: Db, user: int, ids: set<int>, status: string, starred: Option<bool>, now: int): Db {
    WithStar(WithStatus(db, user, ids, status, now), user, ids, starred, now)
  }

  /** In one statement both writes read the tables as they were; for read and unread that is the same. */
  lemma OneSnapshot(db: Db, user: int, ids: set<int>, status: string, starred: Option<bool>, now: int)
    requires status != REMOVED
    ensures Updated(db, user, ids, status, starred, now) ==
            WithStar(db, user, ids, starred, now).(unread := WithStatus(db, user, ids, status, now).unread)
  {
    var d := WithStatus(db, user, ids, status, now);
    assert d == db.(unread := d.unread);
    StarIgnoresUnread(db, d.unread, user, ids, now);
  }

  lemma StarIgnoresUnread(db: Db, unread: map<UserEntry, Unread>, user: int, ids: set<int>, now: int)
    ensures Star(db.(unread := unread), user, ids, now) == Star(db, user, ids, now).(unread := unread)
  {
    var d := db.(unread := unread);
    assert StarTargets(d, user, ids) == StarTargets(db, user, ids);
    assert StarRows(d, user, ids, now) == StarRows(db, user, ids, now);
  }

  /**
    The whole effect of an update on what anybody sees: a removal is final,
    a removed entry keeps its star, an active one gets what was asked for,
    and nobody else and nothing else changes.
   */
  lemma UpdateMeaning(db: Db, user: int, ids: set<int>, status: string, starred: Option<bool>, now: int, u: int, e: int)
    requires Inv(db) && e in db.entries
    ensures Inv(Updated(db, user, ids, status, starred, now))
    ensures var was := Shown(db, u, e);
            Shown(Updated(db, user, ids, status, starred, now), u, e) ==
            if !(u == user && e in ids && Active(db, u, e)) then was
            else if status == REMOVED then View(IsRemoved, was.starred)
            else View(Asked(status, was.status), if starred.Some? then starred.value else was.starred)
  {
    var d := WithStatus(db, user, ids, status, now);
    RowsAtKey(db, UserEntry(e, u));
    StatusKeeps(db, user, ids, status, now);
    StatusMeaning(db, user, ids, status, now, u, e);
    StarWriteKeeps(d, user, ids, starred, now);
    RowsAtKey(d, UserEntry(e, u));
    StarWriteMeaning(d, user, ids, starred, now, u, e);
  }

  /** The entries an update changed for a reader. */
  function Changed(db: Db, d: Db, user: int): set<int> {
    set e | e in db.entries && Shown(d, user, e) != Shown(db, user, e)
  }

  lemma StatusReturnsWhen(db: Db, user: int, ids: set<int>, status: string, e: int)
    requires RowsAt(db, UserEntry(e, user)) && status != REMOVED
    ensures e in StatusReturns(db, user, ids, status) <==>
            Hit(db, user, ids, user, e) && Asked(status, StatusOf(db, user, e)) != StatusOf(db, user, e)
  {
  }

  lemma StarReturnsWhen(db: Db, user: int, ids: set<int>, starred: Option<bool>, e: int)
    requires RowsAt(db, UserEntry(e, user))
    ensures e in StarReturns(db, user, ids, starred) <==>
            starred.Some? && Hit(db, user, ids, user, e) && starred.value != Starred(db, user, e)
  {
  }

  /** The ids the statements return are exactly those whose view changed. */
  lemma ReturnedIsChanged(db: Db, user: int, ids: set<int>, status: string, starred: Option<bool>, now: int)
    requires Inv(db) && status != REMOVED
    ensures StatusReturns(db, user, ids, status) + StarReturns(db, user, ids, starred)
         == Changed(db, Updated(db, user, ids, status, starred, now), user)
  {
    forall e
      ensures e in StatusReturns(db, user, ids, status) || e in StarReturns(db, user, ids, starred)
         <==> e in Changed(db, Updated(db, user, ids, status, starred, now), user)
    {
      RowsAtKey(db, UserEntry(e, user));
      StatusReturnsWhen(db, user, ids, status, e);
      StarReturnsWhen(db, user, ids, starred, e);
      if e in db.entries {
        UpdateMeaning(db, user, ids, status, starred, now, user, e);
      }
    }
  }
}
