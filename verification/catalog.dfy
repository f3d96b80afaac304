/**
  The PostgreSQL tables as one value, and every SQL statement the storage
  layer runs on them as one function from tables to tables.

  A table with a unique key is a map from that key (or a set when the key is
  the whole row). Identifiers come from the two sequences `nextFeed` and
  `nextEntry`, which never go back. `rssam_dedup_key` is taken to be injective,
  so the dedup table stores the hash itself; the stored `items_hash` is the
  byte string that is fed to the digest, under the same assumption.
 */
module Catalog {
  import opened Prelude

  datatype StoreMode = Full | Filtered | Relay

  datatype Feed = Feed(category: Option<int>, mode: StoreMode, retentionDays: Option<int>, itemsHash: string)

  /** sortAt is frozen at insert; removedAt is set for stripped and relay entries. */
  datatype Entry = Entry(feed: int, hash: string, sortAt: int, createdAt: int, removedAt: Option<int>)

  datatype Follow = Follow(category: int, user: int)
  datatype Sub = Sub(user: int, feed: int)
  datatype Seen = Seen(feed: int, hash: string)

  /** The key of both per-user tables. */
  datatype UserEntry = UserEntry(entry: int, user: int)

  /** user_unread: its presence is the unread status. */
  datatype Unread = Unread(feed: int, sortAt: int)

  /** user_entries: the exceptions; a row not marked removed has status `read`. */
  datatype Mark = Mark(removed: bool, starred: bool, sortAt: int, updatedAt: int)

  datatype LogStatus = Pending | Failed | Sent | Dead

  datatype Log = Log(webhook: int, entry: int, status: LogStatus, attempt: nat, nextRetryAt: Option<int>)

  datatype EntryLabel = EntryLabel(entry: int, labelId: int)

  datatype Db = Db(
    feeds: map<int, Feed>,
    categories: set<int>,
    followers: set<Follow>,
    subs: set<Sub>,
    entries: map<int, Entry>,
    unread: map<UserEntry, Unread>,
    marks: map<UserEntry, Mark>,
    dedup: set<Seen>,
    labelOwner: map<int, int>,
    entryLabels: set<EntryLabel>,
    logs: map<int, Log>,
    nextFeed: int,
    nextEntry: int)

  datatype Error = NotFound | InvalidReference | AlreadySubscribed | FollowsCategory | CategoryNotEmpty
                 | HashRequired | InvalidStatus | NothingToUpdate | UndefinedColumn

  /** An item of a poll: CreateEntryParams without the text columns. */
  datatype Item = Item(hash: string, sortAt: int, content: string)

  // ------------------------------------------------------------ lookups

  predicate Subscribed(db: Db, user: int, entry: int) {
    entry in db.entries && Sub(user, db.entries[entry].feed) in db.subs
  }

  predicate MarkedRemoved(db: Db, user: int, entry: int) {
    UserEntry(entry, user) in db.marks && db.marks[UserEntry(entry, user)].removed
  }

  /** entry_bulk.go, entryStarredExpr. */
  predicate Starred(db: Db, user: int, entry: int) {
    UserEntry(entry, user) in db.marks && db.marks[UserEntry(entry, user)].starred
  }

  predicate HiddenForAll(db: Db, entry: int) {
    entry in db.entries && db.entries[entry].removedAt.Some?
  }

  datatype Status = IsUnread | IsRead | IsRemoved

  /** entryStatusExpr: the unread row wins, then removed_at, then the exception row. */
  function StatusOf(db: Db, user: int, entry: int): Status {
    if UserEntry(entry, user) in db.unread then IsUnread
    else if HiddenForAll(db, entry) then IsRemoved
    else if MarkedRemoved(db, user, entry) then IsRemoved
    else IsRead
  }

  /** Every hash FilterKnownEntryHashes can report for a feed. */
  function Known(db: Db, feed: int): set<string> {
    (set e | e in db.entries && db.entries[e].feed == feed :: db.entries[e].hash) +
    (set d | d in db.dedup && d.feed == feed :: d.hash)
  }

  function FeedsOf(db: Db, category: int): set<int> {
    set f | f in db.feeds && db.feeds[f].category == Some(category)
  }

  function FollowersOf(db: Db, category: int): set<int> {
    set p | p in db.followers && p.category == category :: p.user
  }

  function ReadersOf(db: Db, feed: int): set<int> {
    set s | s in db.subs && s.feed == feed :: s.user
  }

  // ------------------------------------------------ per-user status statements

  /** entryMarkRead, also MarkEntryReadIfActive. */
  function MarkRead(db: Db, user: int, ids: set<int>): Db {
    db.(unread := map k | k in db.unread && !(k.user == user && k.entry in ids) :: db.unread[k])
  }

  function UnreadTargets(db: Db, user: int, ids: set<int>): set<int> {
    set e | e in ids && Subscribed(db, user, e) && !HiddenForAll(db, e) && !MarkedRemoved(db, user, e)
            && UserEntry(e, user) !in db.unread
  }

  /** entryMarkUnread. */
  function MarkUnread(db: Db, user: int, ids: set<int>): Db {
    db.(unread := db.unread + (map e | e in UnreadTargets(db, user, ids) ::
                     UserEntry(e, user) := Unread(db.entries[e].feed, db.entries[e].sortAt)))
  }

  function StarTargets(db: Db, user: int, ids: set<int>): set<int> {
    set e | e in ids && Subscribed(db, user, e) && !HiddenForAll(db, e)
  }

  /** The row entryStar leaves: an insert, or the conditional conflict update. */
  function StarredRow(db: Db, user: int, e: int, now: int): Mark
    requires e in db.entries
  {
    var k := UserEntry(e, user);
    if k !in db.marks then Mark(false, true, db.entries[e].sortAt, now)
    else if !db.marks[k].starred && !db.marks[k].removed then db.marks[k].(starred := true, updatedAt := now)
    else db.marks[k]
  }

  function StarRows(db: Db, user: int, ids: set<int>, now: int): (rows: map<UserEntry, Mark>)
    ensures forall k :: k in rows <==> k.user == user && k.entry in StarTargets(db, user, ids)
    ensures forall k :: k in rows ==> k.entry in db.entries && rows[k] == StarredRow(db, user, k.entry, now)
  {
    map e | e in StarTargets(db, user, ids) :: UserEntry(e, user) := StarredRow(db, user, e, now)
  }

  /** entryStar. */
  function Star(db: Db, user: int, ids: set<int>, now: int): Db {
    db.(marks := db.marks + StarRows(db, user, ids, now))
  }

  /** entryUnstar: a removed row keeps its star. */
  function Unstar(db: Db, user: int, ids: set<int>): Db {
    db.(marks := map k | k in db.marks && !(k.user == user && k.entry in ids && db.marks[k].starred && !db.marks[k].removed)
                     :: db.marks[k])
  }

  /** The row entryRemove leaves. */
  function RemovedRow(db: Db, user: int, e: int, now: int): Mark
    requires e in db.entries
  {
    var k := UserEntry(e, user);
    if k !in db.marks then Mark(true, false, db.entries[e].sortAt, now)
    else if !db.marks[k].removed then db.marks[k].(removed := true, updatedAt := now)
    else db.marks[k]
  }

  function RemoveFor(db: Db, user: int, ids: set<int>, targets: set<int>, now: int): Db
    requires targets <= db.entries.Keys
  {
    MarkRead(db, user, ids).(marks := db.marks + (map e | e in targets :: UserEntry(e, user) := RemovedRow(db, user, e, now)))
  }

  /** MarkEntriesRemoved and the removed branch of UpdateEntry. */
  function Remove(db: Db, user: int, ids: set<int>, now: int): Db {
    RemoveFor(db, user, ids, (set e | e in ids && Subscribed(db, user, e)), now)
  }

  /** MarkEntryRemovedKeepPayload: the same without the subscription test. */
  function RemoveKeepPayload(db: Db, user: int, entry: int, now: int): Db {
    RemoveFor(db, user, {entry}, {entry} * db.entries.Keys, now)
  }

  // ------------------------------------------------------- entries and hashes

  /** The items that get a row: hash unknown and not earlier in the batch (ON CONFLICT DO NOTHING). */
  function Fresh(items: seq<Item>, known: set<string>): seq<Item> {
    if items == [] then []
    else if items[0].hash in known then Fresh(items[1..], known)
    else [items[0]] + Fresh(items[1..], known + {items[0].hash})
  }

  predicate InRange(id: int, first: int, count: nat) {
    first <= id < first + count
  }

  /** The next values of a sequence. */
  function NewIds(first: int, count: nat): (ids: set<int>)
    ensures forall id :: id in ids <==> InRange(id, first, count)
  {
    set id | first <= id < first + count && InRange(id, first, count)
  }

  function NewRows(feed: int, added: seq<Item>, first: int, now: int, removedAt: Option<int>): (rows: map<int, Entry>)
    ensures forall e :: e in rows <==> InRange(e, first, |added|)
    ensures forall e :: e in rows ==> InRange(e, first, |added|) && rows[e] == Entry(feed, added[e - first].hash, added[e - first].sortAt, now, removedAt)
  {
    map e | e in NewIds(first, |added|) :: Entry(feed, added[e - first].hash, added[e - first].sortAt, now, removedAt)
  }

  function InsertRows(db: Db, feed: int, added: seq<Item>, relay: bool, now: int): Db {
    db.(entries := db.entries + NewRows(feed, added, db.nextEntry, now, if relay then Some(now) else None),
        unread := if relay then db.unread else db.unread + FanOut(feed, added, db.nextEntry, ReadersOf(db, feed)),
        nextEntry := db.nextEntry + |added|)
  }

  function Keys(ids: set<int>, users: set<int>): (keys: set<UserEntry>)
    ensures forall k :: k in keys <==> k.entry in ids && k.user in users
  {
    var keys := set e, u | e in ids && u in users :: UserEntry(e, u);
    assert forall k: UserEntry :: k.entry in ids && k.user in users ==> k == UserEntry(k.entry, k.user) && k in keys;
    keys
  }

  /** One unread row per new entry and subscriber. */
  function FanOut(feed: int, added: seq<Item>, first: int, users: set<int>): (rows: map<UserEntry, Unread>)
    ensures forall k :: k in rows <==> InRange(k.entry, first, |added|) && k.user in users
    ensures forall k :: k in rows ==> InRange(k.entry, first, |added|) && rows[k] == Unread(feed, added[k.entry - first].sortAt)
  {
    map k | k in Keys(NewIds(first, |added|), users) :: Unread(feed, added[k.entry - first].sortAt)
  }

  /** createEntries: all items need a hash, the feed must exist, known items are dropped. */
  function CreateEntries(db: Db, feed: int, items: seq<Item>, relay: bool, now: int): Result<Db, Error> {
    if items == [] then Ok(db)
    else if exists i :: 0 <= i < |items| && items[i].hash == "" then Err(HashRequired)
    else
      var added := Fresh(items, Known(db, feed));
      if added == [] then Ok(db)
      else if feed !in db.feeds then Err(NotFound)
      else Ok(InsertRows(db, feed, added, relay, now))
  }

  /** recordFeedEntryDedup, after its check that no hash is blank. */
  function RecordDedup(db: Db, feed: int, hashes: set<string>): Db {
    db.(dedup := db.dedup + (set h | h in hashes :: Seen(feed, h)))
  }

  /** StripEntryPayloadAfterWebhook. */
  function Strip(db: Db, entry: int, now: int): Db {
    if entry !in db.entries then db else
    var e := db.entries[entry];
    db.(entries := db.entries[entry := e.(removedAt := if e.removedAt.Some? then e.removedAt else Some(now))],
        unread := map k | k in db.unread && k.entry != entry :: db.unread[k],
        marks := map k | k in db.marks && k.entry != entry :: db.marks[k],
        dedup := if e.hash == "" then db.dedup else db.dedup + {Seen(e.feed, e.hash)})
  }

  /** DELETE FROM entries with its cascades; keepHashes adds what the `ins`/`d` part of the statement records. */
  function DeleteEntries(db: Db, doomed: set<int>, keepHashes: bool): Db {
    db.(entries := map e | e in db.entries && e !in doomed :: db.entries[e],
        unread := map k | k in db.unread && k.entry !in doomed :: db.unread[k],
        marks := map k | k in db.marks && k.entry !in doomed :: db.marks[k],
        entryLabels := (set l | l in db.entryLabels && l.entry !in doomed),
        dedup := if keepHashes then db.dedup + HashesOf(db, doomed) else db.dedup)
  }

  function HashesOf(db: Db, ids: set<int>): set<Seen> {
    set e | e in ids && e in db.entries && db.entries[e].hash != "" :: Seen(db.entries[e].feed, db.entries[e].hash)
  }

  predicate Unsettled(l: Log) {
    l.status.Pending? || l.status.Failed?
  }

  /** Some delivery of the entry other than `exclude` is still pending or failed. */
  predicate HeldByOther(db: Db, entry: int, exclude: int) {
    exists l :: l in db.logs && l != exclude && db.logs[l].entry == entry && Unsettled(db.logs[l])
  }

  predicate Delivering(db: Db, entry: int) {
    exists l :: l in db.logs && db.logs[l].entry == entry && Unsettled(db.logs[l])
  }

  predicate HasDelivery(db: Db, entry: int) {
    exists l :: l in db.logs && db.logs[l].entry == entry
  }

  predicate StarredByAnyone(db: Db, entry: int) {
    exists k :: k in db.marks && k.entry == entry && db.marks[k].starred
  }

  predicate Labelled(db: Db, entry: int) {
    exists l :: l in db.entryLabels && l.entry == entry
  }

  /** DeleteRelayEntryAfterWebhook. */
  function DeleteRelayEntry(db: Db, entry: int, excludeLog: int): Db {
    if HeldByOther(db, entry, excludeLog) then db else DeleteEntries(db, {entry}, true)
  }

  /** DropUndeliveredRelayEntries. */
  function DropUndelivered(db: Db, ids: set<int>): Db {
    DeleteEntries(db, (set e | e in ids && e in db.entries && !HasDelivery(db, e)), true)
  }

  /** The scope of one collapse: a user (0 = all), a feed, a category (0 = none), the mode switch and the label switch. */
  datatype CollapseParams = CollapseParams(user: int, feed: Option<int>, category: Option<int>, onlyHashFeeds: bool, includeLabelled: bool)

  /** The `doomed` CTE of collapseEntriesBatch without its LIMIT. */
  predicate Collapsible(db: Db, p: CollapseParams, e: int) {
    && e in db.entries
    && var f := db.entries[e].feed;
    && f in db.feeds
    && (p.user == 0 || (Sub(p.user, f) in db.subs &&
                        (p.category.None? || (p.category == Some(0) && db.feeds[f].category.None?) || db.feeds[f].category == p.category)))
    && (p.feed.None? || p.feed == Some(f))
    && !StarredByAnyone(db, e)
    && (p.includeLabelled || !Labelled(db, e))
    && !Delivering(db, e)
    && (!p.onlyHashFeeds || !db.feeds[f].mode.Full?)
  }

  // ----------------------------------------------------------------- retention

  /** First statement of purgeRemovedEntries: removed by every reader before the cutoff. */
  predicate RemovedByAll(db: Db, e: int, before: int) {
    && e in db.entries
    && (exists k :: k in db.marks && k.entry == e && db.marks[k].removed && db.marks[k].updatedAt < before)
    && (exists s :: s in db.subs && s.feed == db.entries[e].feed)
    && (forall s :: s in db.subs && s.feed == db.entries[e].feed ==>
          UserEntry(e, s.user) in db.marks && db.marks[UserEntry(e, s.user)].removed && db.marks[UserEntry(e, s.user)].updatedAt < before)
    && !StarredByAnyone(db, e)
  }

  /** Second statement: stripped or relay entries past the cutoff. It does not look at stars. */
  predicate HiddenBefore(db: Db, e: int, before: int) {
    e in db.entries && db.entries[e].removedAt.Some? && db.entries[e].removedAt.value < before
  }

  const DAY: int := 86400

  /** The per-feed entry_retention_days rule. */
  predicate PastFeedRetention(db: Db, e: int, now: int) {
    && e in db.entries && db.entries[e].feed in db.feeds
    && db.feeds[db.entries[e].feed].retentionDays.Some?
    && !StarredByAnyone(db, e)
    && db.entries[e].createdAt < now - db.feeds[db.entries[e].feed].retentionDays.value * DAY
  }

  // ------------------------------------------------- subscriptions and categories

  const SUBSCRIBE_UNREAD_BACKFILL: nat := 100

  /** ORDER BY sort_at DESC, id DESC: a comes before b. */
  predicate Newer(db: Db, a: int, b: int)
    requires a in db.entries && b in db.entries
  {
    db.entries[a].sortAt > db.entries[b].sortAt || (db.entries[a].sortAt == db.entries[b].sortAt && a > b)
  }

  function VisibleEntries(db: Db, feed: int): set<int> {
    set e | e in db.entries && db.entries[e].feed == feed && db.entries[e].removedAt.None?
  }

  /** How many of `pool` come before e. */
  function Rank(db: Db, pool: set<int>, e: int): nat
    requires pool <= db.entries.Keys && e in db.entries
  {
    |set x | x in pool && Newer(db, x, e)|
  }

  /** ORDER BY sort_at DESC, id DESC LIMIT count. */
  function Newest(db: Db, pool: set<int>, count: nat): set<int>
    requires pool <= db.entries.Keys
  {
    set e | e in pool && Rank(db, pool, e) < count
  }

  /** The entries a new subscriber gets as unread. */
  function Backfill(db: Db, feed: int): set<int> {
    Newest(db, VisibleEntries(db, feed), SUBSCRIBE_UNREAD_BACKFILL)
  }

  function BackfillKeys(db: Db, pairs: set<Sub>): set<UserEntry> {
    set p, e | p in pairs && e in Backfill(db, p.feed) :: UserEntry(e, p.user)
  }

  /** The unread rows of the backfill, with their copied columns. */
  function UnreadFor(db: Db, keys: set<UserEntry>): map<UserEntry, Unread> {
    map k | k in keys && k.entry in db.entries :: Unread(db.entries[k.entry].feed, db.entries[k.entry].sortAt)
  }

  /** subscribeTx for a set of new subscriptions at once. */
  function SubscribePairs(db: Db, pairs: set<Sub>): Db {
    db.(subs := db.subs + pairs,
        unread := UnreadFor(db, BackfillKeys(db, pairs)) + db.unread)
  }

  /** unsubscribeTx for a set of existing subscriptions at once. */
  function UnsubscribePairs(db: Db, pairs: set<Sub>): Db {
    db.(subs := db.subs - pairs,
        unread := map k | k in db.unread && Sub(k.user, db.unread[k].feed) !in pairs :: db.unread[k],
        marks := map k | k in db.marks && !(k.entry in db.entries && Sub(k.user, db.entries[k.entry].feed) in pairs) :: db.marks[k],
        entryLabels := (set l | l in db.entryLabels &&
                         !(l.entry in db.entries && l.labelId in db.labelOwner &&
                           Sub(db.labelOwner[l.labelId], db.entries[l.entry].feed) in pairs)))
  }

  function PairsOfUser(user: int, feeds: set<int>): set<Sub> {
    set f | f in feeds :: Sub(user, f)
  }

  function PairsOfFeed(users: set<int>, feed: int): set<Sub> {
    set u | u in users :: Sub(u, feed)
  }

  function SubscribeOne(db: Db, user: int, feed: int): Result<Db, Error> {
    if Sub(user, feed) in db.subs then Err(AlreadySubscribed)
    else if feed !in db.feeds then Err(InvalidReference)
    else Ok(SubscribePairs(db, {Sub(user, feed)}))
  }

  function UnsubscribeOne(db: Db, user: int, feed: int): Result<Db, Error> {
    if Sub(user, feed) !in db.subs then Err(NotFound)
    else Ok(UnsubscribePairs(db, {Sub(user, feed)}))
  }

  /** Unsubscribe refuses a feed that is read through a followed category. */
  predicate ReadThroughCategory(db: Db, user: int, feed: int) {
    feed in db.feeds && db.feeds[feed].category.Some? && Follow(db.feeds[feed].category.value, user) in db.followers
  }

  function Unsubscribe(db: Db, user: int, feed: int): Result<Db, Error> {
    if ReadThroughCategory(db, user, feed) then Err(FollowsCategory) else UnsubscribeOne(db, user, feed)
  }

  function FollowCategory(db: Db, user: int, category: int): Result<Db, Error> {
    if category !in db.categories then Err(NotFound)
    else
      var d := db.(followers := db.followers + {Follow(category, user)});
      Ok(SubscribePairs(d, PairsOfUser(user, FeedsOf(db, category)) - db.subs))
  }

  function UnfollowCategory(db: Db, user: int, category: int): Result<Db, Error> {
    if Follow(category, user) !in db.followers then Err(NotFound)
    else
      var d := db.(followers := db.followers - {Follow(category, user)});
      Ok(UnsubscribePairs(d, PairsOfUser(user, FeedsOf(db, category)) * db.subs))
  }

  /** First half of syncCategoryFollowersTx: who loses the feed. */
  function Losers(db: Db, feed: int, oldCat: Option<int>, newCat: Option<int>): set<Sub> {
    if oldCat.None? || oldCat == newCat then {}
    else set s | s in db.subs && s.feed == feed && Follow(oldCat.value, s.user) in db.followers
                 && !(newCat.Some? && Follow(newCat.value, s.user) in db.followers)
  }

  /** subscribeFollowersTx: who gains the feed. */
  function Gainers(db: Db, feed: int, oldCat: Option<int>, newCat: Option<int>): set<Sub> {
    if newCat.None? || oldCat == newCat then {}
    else PairsOfFeed(FollowersOf(db, newCat.value), feed) - db.subs
  }

  /** UPDATE feeds SET category_id followed by syncCategoryFollowersTx. */
  function MoveFeed(db: Db, feed: int, newCat: Option<int>): Db
    requires feed in db.feeds
  {
    var oldCat := db.feeds[feed].category;
    var d0 := db.(feeds := db.feeds[feed := db.feeds[feed].(category := newCat)]);
    var d1 := UnsubscribePairs(d0, Losers(d0, feed, oldCat, newCat));
    SubscribePairs(d1, Gainers(d1, feed, oldCat, newCat))
  }

  /** The INSERT INTO feeds of CreateFeed, with an empty item fingerprint, and the owner's subscription. */
  function AddFeed(db: Db, feed: Feed, owners: set<int>): Db {
    db.(feeds := db.feeds[db.nextFeed := feed.(itemsHash := "")], nextFeed := db.nextFeed + 1, subs := db.subs + PairsOfFeed(owners, db.nextFeed))
  }

  /** CreateFeed: the catalogue row, the owner's subscription unless skipped, then the category's followers. */
  function CreateFeed(db: Db, owner: int, feed: Feed, skipOwner: bool): Result<Db, Error> {
    var d := AddFeed(db, feed, if skipOwner then {} else {owner});
    if feed.category.None? then Ok(d)
    else if feed.category.value !in db.categories then Err(InvalidReference)
    else Ok(SubscribePairs(d, PairsOfFeed(FollowersOf(d, feed.category.value), db.nextFeed) - d.subs))
  }

  /** The columns UpdateFeed sets besides the category; a new URL clears the item fingerprint. */
  function Reconfigure(db: Db, id: int, mode: StoreMode, retentionDays: Option<int>, sameUrl: bool): Db
    requires id in db.feeds
  {
    var f := db.feeds[id];
    db.(feeds := db.feeds[id := Feed(f.category, mode, retentionDays, if sameUrl then f.itemsHash else "")])
  }

  /** UpdateFeed as far as the tables here can see it. */
  function UpdateFeed(db: Db, id: int, newCat: Option<int>, mode: StoreMode, retentionDays: Option<int>, sameUrl: bool): Result<Db, Error> {
    if id !in db.feeds then Err(NotFound)
    else if newCat.Some? && newCat.value !in db.categories then Err(InvalidReference)
    else Ok(MoveFeed(Reconfigure(db, id, mode, retentionDays, sameUrl), id, newCat))
  }

  /** The move branch of BulkUpdateFeedsByCategory: the feeds one after another. */
  function MoveAll(db: Db, ids: seq<int>, newCat: Option<int>): Db
    requires forall i :: 0 <= i < |ids| ==> ids[i] in db.feeds
    decreases |ids|
  {
    if ids == [] then db else MoveAll(MoveFeed(db, ids[0], newCat), ids[1..], newCat)
  }

  /** DELETE FROM feeds with its cascades. */
  function DeleteFeed(db: Db, id: int): Result<Db, Error> {
    if id !in db.feeds then Err(NotFound)
    else
      var d := DeleteEntries(db, (set e | e in db.entries && db.entries[e].feed == id), false);
      Ok(d.(feeds := map f | f in db.feeds && f != id :: db.feeds[f],
            subs := (set s | s in db.subs && s.feed != id),
            dedup := set x | x in db.dedup && x.feed != id))
  }

  /** DELETE FROM categories: refused while a feed refers to it (ON DELETE RESTRICT). */
  function DeleteCategory(db: Db, id: int): Result<Db, Error> {
    if FeedsOf(db, id) != {} then Err(CategoryNotEmpty)
    else if id !in db.categories then Err(NotFound)
    else Ok(db.(categories := db.categories - {id}, followers := set p | p in db.followers && p.category != id))
  }
}
