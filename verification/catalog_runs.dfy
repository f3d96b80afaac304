/**
  Runs of storage operations: the invariant over every run, what the hash set
  remembers, what retention may delete, and what a feed move touches.
 */
module CatalogRuns {
  import opened Prelude
  import opened Text
  import opened Catalog
  import opened CatalogInvariant

  /** What a reader does, or what a webhook or filter does for one. */
  datatype UserOp =
    | OpMarkRead(user: int, ids: set<int>)
    | OpMarkUnread(user: int, ids: set<int>)
    | OpStar(user: int, ids: set<int>)
    | OpUnstar(user: int, ids: set<int>)
    | OpRemove(user: int, ids: set<int>)
    | OpRemoveKeepPayload(user: int, entry: int)

  /** What polls and deliveries do. A batch is what a LIMIT without ORDER BY happened to pick. */
  datatype EntryOp =
    | OpPoll(feed: int, wanted: seq<Item>, hashOnly: set<string>, relay: bool)
    | OpStrip(entry: int)
    | OpDeleteRelay(entry: int, log: int)
    | OpDropUndelivered(ids: set<int>)
    | OpCollapse(params: CollapseParams, batch: set<int>)

  /** What editors and subscribers do to the catalogue. */
  datatype CatalogOp =
    | OpSubscribe(user: int, feed: int)
    | OpUnsubscribe(user: int, feed: int)
    | OpFollow(user: int, category: int)
    | OpUnfollow(user: int, category: int)
    | OpCreateFeed(user: int, row: Feed, skipOwner: bool)
    | OpUpdateFeed(feed: int, target: Option<int>, mode: StoreMode, retentionDays: Option<int>, sameUrl: bool)
    | OpMoveFeeds(feeds: seq<int>, target: Option<int>)
    | OpDeleteFeed(feed: int)
    | OpCreateCategory(category: int)
    | OpDeleteCategory(category: int)
    | OpWebhookLogs(logs: map<int, Log>)

  /** What the cleanup pass does. */
  datatype RetentionOp =
    | OpPurgeRemoved(before: int, batch: set<int>)
    | OpPurgeHidden(before: int, batch: set<int>)
    | OpPurgeOld(batch: set<int>)
    | OpForgetHashes(hashes: set<Seen>)

  /** One committed transaction. */
  datatype Op = ByUser(u: UserOp) | OnEntries(e: EntryOp) | OnCatalog(c: CatalogOp) | Retention(r: RetentionOp)

  function Committed(db: Db, r: Result<Db, Error>): Db {
    if r.Ok? then r.value else db
  }

  /** StoreFilteredPoll; a full poll has no hash-only items. Either everything is written or nothing. */
  function StorePoll(db: Db, feed: int, wanted: seq<Item>, hashOnly: set<string>, relay: bool, now: int): Result<Db, Error> {
    var created := CreateEntries(db, feed, wanted, relay, now);
    if created.Err? then created
    else if exists h :: h in hashOnly && Blank(h) then Err(HashRequired)
    else if hashOnly != {} && feed !in db.feeds then Err(NotFound)
    else Ok(RecordDedup(created.value, feed, hashOnly))
  }

  function UserStep(db: Db, op: UserOp, now: int): Db {
    match op
    case OpMarkRead(u, ids) => MarkRead(db, u, ids)
    case OpMarkUnread(u, ids) => MarkUnread(db, u, ids)
    case OpStar(u, ids) => Star(db, u, ids, now)
    case OpUnstar(u, ids) => Unstar(db, u, ids)
    case OpRemove(u, ids) => Remove(db, u, ids, now)
    case OpRemoveKeepPayload(u, e) => RemoveKeepPayload(db, u, e, now)
  }

  function EntryStep(db: Db, op: EntryOp, now: int): Db {
    match op
    case OpPoll(f, wanted, hashOnly, relay) => Committed(db, StorePoll(db, f, wanted, hashOnly, relay, now))
    case OpStrip(e) => Strip(db, e, now)
    case OpDeleteRelay(e, l) => DeleteRelayEntry(db, e, l)
    case OpDropUndelivered(ids) => DropUndelivered(db, ids)
    case OpCollapse(p, batch) => DeleteEntries(db, (set e | e in batch && Collapsible(db, p, e)), true)
  }

  function CatalogStep(db: Db, op: CatalogOp): Db {
    match op
    case OpSubscribe(u, f) => Committed(db, SubscribeOne(db, u, f))
    case OpUnsubscribe(u, f) => Committed(db, Unsubscribe(db, u, f))
    case OpFollow(u, c) => Committed(db, FollowCategory(db, u, c))
    case OpUnfollow(u, c) => Committed(db, UnfollowCategory(db, u, c))
    case OpCreateFeed(u, row, skip) => Committed(db, CreateFeed(db, u, row, skip))
    case OpUpdateFeed(f, c, mode, days, same) => Committed(db, UpdateFeed(db, f, c, mode, days, same))
    case OpMoveFeeds(fs, c) => if Movable(db, fs, c) then MoveAll(db, fs, c) else db
    case OpDeleteFeed(f) => Committed(db, DeleteFeed(db, f))
    case OpCreateCategory(c) => db.(categories := db.categories + {c})
    case OpDeleteCategory(c) => Committed(db, DeleteCategory(db, c))
    case OpWebhookLogs(logs) => db.(logs := logs)
  }

  function RetentionStep(db: Db, op: RetentionOp, now: int): Db {
    match op
    case OpPurgeRemoved(before, batch) => DeleteEntries(db, (set e | e in batch && RemovedByAll(db, e, before)), false)
    case OpPurgeHidden(before, batch) => DeleteEntries(db, (set e | e in batch && HiddenBefore(db, e, before)), false)
    case OpPurgeOld(batch) => DeleteEntries(db, (set e | e in batch && PastFeedRetention(db, e, now)), false)
    case OpForgetHashes(hashes) => db.(dedup := db.dedup - hashes)
  }

  predicate Movable(db: Db, feeds: seq<int>, target: Option<int>) {
    (forall i :: 0 <= i < |feeds| ==> feeds[i] in db.feeds) && (target.Some? ==> target.value in db.categories)
  }

  function Step(db: Db, op: Op, now: int): Db {
    match op
    case ByUser(u) => UserStep(db, u, now)
    case OnEntries(e) => EntryStep(db, e, now)
    case OnCatalog(c) => CatalogStep(db, c)
    case Retention(r) => RetentionStep(db, r, now)
  }

  /** The one statement that relies on its caller: the webhook's owner must still read the feed. */
  predicate Allowed(db: Db, op: Op) {
    op.ByUser? && op.u.OpRemoveKeepPayload? && op.u.entry in db.entries ==> Subscribed(db, op.u.user, op.u.entry)
  }

  /** A run: operations with the clock reading each of them saw. */
  datatype Timed = Timed(op: Op, now: int)

  function Run(db: Db, ops: seq<Timed>): Db
    decreases |ops|
  {
    if ops == [] then db else Run(Step(db, ops[0].op, ops[0].now), ops[1..])
  }

  predicate AllAllowed(db: Db, ops: seq<Timed>)
    decreases |ops|
  {
    ops == [] || (Allowed(db, ops[0].op) && AllAllowed(Step(db, ops[0].op, ops[0].now), ops[1..]))
  }

  // ------------------------------------------------------ the invariant on runs

  lemma StorePollKeeps(db: Db, feed: int, wanted: seq<Item>, hashOnly: set<string>, relay: bool, now: int)
    requires Inv(db)
    ensures var r := StorePoll(db, feed, wanted, hashOnly, relay, now); r.Ok? ==> Inv(r.value)
  {
    if StorePoll(db, feed, wanted, hashOnly, relay, now).Ok? {
      CreateEntriesKeeps(db, feed, wanted, relay, now);
      var d := CreateEntries(db, feed, wanted, relay, now).value;
      if hashOnly != {} {
        RecordDedupKeeps(d, feed, hashOnly);
      } else {
        assert RecordDedup(d, feed, hashOnly) == d;
      }
    }
  }

  lemma UserStepKeeps(db: Db, op: UserOp, now: int)
    requires Inv(db) && Allowed(db, ByUser(op))
    ensures Inv(UserStep(db, op, now))
  {
    match op
    case OpMarkRead(u, ids) => MarkReadKeeps(db, u, ids);
    case OpMarkUnread(u, ids) => MarkUnreadKeeps(db, u, ids);
    case OpStar(u, ids) => StarKeeps(db, u, ids, now);
    case OpUnstar(u, ids) => UnstarKeeps(db, u, ids);
    case OpRemove(u, ids) => RemoveKeeps(db, u, ids, now);
    case OpRemoveKeepPayload(u, e) => RemoveKeepPayloadKeepsIff(db, u, e, now);
  }

  lemma EntryStepKeeps(db: Db, op: EntryOp, now: int)
    requires Inv(db)
    ensures Inv(EntryStep(db, op, now))
  {
    match op
    case OpPoll(f, wanted, hashOnly, relay) => StorePollKeeps(db, f, wanted, hashOnly, relay, now);
    case OpStrip(e) => StripKeeps(db, e, now);
    case OpDeleteRelay(e, l) => DeleteEntriesKeeps(db, {e}, true);
    case OpDropUndelivered(ids) => DeleteEntriesKeeps(db, (set e | e in ids && e in db.entries && !HasDelivery(db, e)), true);
    case OpCollapse(p, batch) => DeleteEntriesKeeps(db, (set e | e in batch && Collapsible(db, p, e)), true);
  }

  lemma CatalogStepKeeps(db: Db, op: CatalogOp)
    requires Inv(db)
    ensures Inv(CatalogStep(db, op))
  {
    match op
    case OpSubscribe(u, f) => SubscribeOneKeeps(db, u, f);
    case OpUnsubscribe(u, f) => UnsubscribeKeeps(db, u, f);
    case OpFollow(u, c) => FollowCategoryKeeps(db, u, c);
    case OpUnfollow(u, c) => UnfollowCategoryKeeps(db, u, c);
    case OpCreateFeed(u, row, skip) => CreateFeedKeeps(db, u, row, skip);
    case OpUpdateFeed(f, c, mode, days, same) => UpdateFeedKeeps(db, f, c, mode, days, same);
    case OpMoveFeeds(fs, c) => if Movable(db, fs, c) { MoveAllKeeps(db, fs, c); }
    case OpDeleteFeed(f) => DeleteFeedKeeps(db, f);
    case OpCreateCategory(c) => RowsCarryOver(db, CatalogStep(db, op));
    case OpDeleteCategory(c) => DeleteCategoryKeeps(db, c);
    case OpWebhookLogs(logs) => RowsCarryOver(db, CatalogStep(db, op));
  }

  lemma RetentionStepKeeps(db: Db, op: RetentionOp, now: int)
    requires Inv(db)
    ensures Inv(RetentionStep(db, op, now))
  {
    match op
    case OpPurgeRemoved(before, batch) => DeleteEntriesKeeps(db, (set e | e in batch && RemovedByAll(db, e, before)), false);
    case OpPurgeHidden(before, batch) => DeleteEntriesKeeps(db, (set e | e in batch && HiddenBefore(db, e, before)), false);
    case OpPurgeOld(batch) => DeleteEntriesKeeps(db, (set e | e in batch && PastFeedRetention(db, e, now)), false);
    case OpForgetHashes(hashes) => RowsCarryOver(db, RetentionStep(db, op, now));
  }

  lemma StepKeepsInvariant(db: Db, op: Op, now: int)
    requires Inv(db) && Allowed(db, op)
    ensures Inv(Step(db, op, now))
  {
    match op
    case ByUser(u) => UserStepKeeps(db, u, now);
    case OnEntries(e) => EntryStepKeeps(db, e, now);
    case OnCatalog(c) => CatalogStepKeeps(db, c);
    case Retention(r) => RetentionStepKeeps(db, r, now);
  }

  /** Every reachable state satisfies the invariant. */
  lemma {:induction false} RunKeepsInvariant(db: Db, ops: seq<Timed>)
    requires Inv(db) && AllAllowed(db, ops)
    ensures Inv(Run(db, ops))
    decreases |ops|
  {
    if ops != [] {
      StepKeepsInvariant(db, ops[0].op, ops[0].now);
      RunKeepsInvariant(Step(db, ops[0].op, ops[0].now), ops[1..]);
    }
  }

  /** From empty tables every state that is ever reached satisfies it. */
  lemma ReachableHolds(start: Db, ops: seq<Timed>)
    requires start.feeds == map[] && start.entries == map[] && start.followers == {} && start.subs == {} && start.dedup == {}
    requires start.unread == map[] && start.marks == map[] && AllAllowed(start, ops)
    ensures Inv(Run(start, ops))
  {
    EmptyDbHolds(start);
    RunKeepsInvariant(start, ops);
  }

  // --------------------------------------------------- what the feed remembers

  /** Retention, and deleting the feed itself, are the only operations that forget. */
  predicate Forgets(op: Op, feed: int) {
    op.Retention? || op == OnCatalog(OpDeleteFeed(feed))
  }

  lemma DeleteKeepsKnown(db: Db, doomed: set<int>, feed: int)
    requires KeysHold(db)
    ensures Known(db, feed) <= Known(DeleteEntries(db, doomed, true), feed)
  {
    var d := DeleteEntries(db, doomed, true);
    forall h | h in Known(db, feed) ensures h in Known(d, feed) {
      if e :| e in db.entries && db.entries[e].feed == feed && db.entries[e].hash == h {
        if e in doomed {
          assert Seen(feed, h) in HashesOf(db, doomed);
          assert Seen(feed, h) in d.dedup;
        } else {
          assert e in d.entries;
        }
      } else {
        assert Seen(feed, h) in d.dedup;
      }
    }
  }

  /** The feed's entries keep their hash and its dedup rows stay. */
  ghost predicate HashesStay(db: Db, d: Db, feed: int) {
    && (forall e :: e in db.entries && db.entries[e].feed == feed ==>
          e in d.entries && d.entries[e].feed == feed && d.entries[e].hash == db.entries[e].hash)
    && (forall x :: x in db.dedup && x.feed == feed ==> x in d.dedup)
  }

  lemma {:induction false} MoveAllTouchesNoEntry(db: Db, ids: seq<int>, newCat: Option<int>)
    requires forall i :: 0 <= i < |ids| ==> ids[i] in db.feeds
    ensures MoveAll(db, ids, newCat).entries == db.entries && MoveAll(db, ids, newCat).dedup == db.dedup
    decreases |ids|
  {
    if ids != [] {
      MoveAllTouchesNoEntry(MoveFeed(db, ids[0], newCat), ids[1..], newCat);
    }
  }

  /** Subscribers and followers come and go without touching an entry. */
  lemma ReadersTouchNoEntry(db: Db, op: CatalogOp)
    requires op.OpSubscribe? || op.OpUnsubscribe? || op.OpFollow? || op.OpUnfollow?
    ensures CatalogStep(db, op).entries == db.entries && CatalogStep(db, op).dedup == db.dedup
  {
  }

  lemma CreateTouchesNoEntry(db: Db, owner: int, row: Feed, skip: bool)
    ensures var d := Committed(db, CreateFeed(db, owner, row, skip)); d.entries == db.entries && d.dedup == db.dedup
  {
  }

  lemma UpdateTouchesNoEntry(db: Db, f: int, c: Option<int>, mode: StoreMode, days: Option<int>, same: bool)
    ensures var d := Committed(db, UpdateFeed(db, f, c, mode, days, same)); d.entries == db.entries && d.dedup == db.dedup
  {
  }

  lemma OthersTouchNoEntry(db: Db, op: CatalogOp)
    requires op.OpMoveFeeds? || op.OpCreateCategory? || op.OpDeleteCategory? || op.OpWebhookLogs?
    ensures CatalogStep(db, op).entries == db.entries && CatalogStep(db, op).dedup == db.dedup
  {
    if op.OpMoveFeeds? && Movable(db, op.feeds, op.target) {
      MoveAllTouchesNoEntry(db, op.feeds, op.target);
    }
  }

  /** The catalogue operations never add an entry, and lose one only with its feed. */
  lemma CatalogStepHashes(db: Db, op: CatalogOp, feed: int)
    ensures CatalogStep(db, op).entries.Keys <= db.entries.Keys
    ensures op != OpDeleteFeed(feed) ==> HashesStay(db, CatalogStep(db, op), feed)
  {
    if op.OpDeleteFeed? {
      DeletedFeedHashes(db, op, feed);
    } else if op.OpSubscribe? || op.OpUnsubscribe? || op.OpFollow? || op.OpUnfollow? {
      ReadersTouchNoEntry(db, op);
    } else if op.OpCreateFeed? || op.OpUpdateFeed? {
      match op {
        case OpCreateFeed(u, row, skip) => CreateTouchesNoEntry(db, u, row, skip);
        case OpUpdateFeed(f, c, mode, days, same) => UpdateTouchesNoEntry(db, f, c, mode, days, same);
      }
    } else {
      OthersTouchNoEntry(db, op);
    }
  }

  lemma DeletedFeedHashes(db: Db, op: CatalogOp, feed: int)
    requires op.OpDeleteFeed?
    ensures CatalogStep(db, op).entries.Keys <= db.entries.Keys
    ensures op.feed != feed ==> HashesStay(db, CatalogStep(db, op), feed)
  {
  }

  lemma PollHashes(db: Db, f: int, wanted: seq<Item>, hashOnly: set<string>, relay: bool, now: int, feed: int)
    requires KeysHold(db)
    ensures HashesStay(db, EntryStep(db, OpPoll(f, wanted, hashOnly, relay), now), feed)
  {
    InsertedEntries(db, f, Fresh(wanted, Known(db, f)), relay, now);
  }

  lemma EntryStepKeepsKnown(db: Db, op: EntryOp, now: int, feed: int)
    requires KeysHold(db)
    ensures Known(db, feed) <= Known(EntryStep(db, op, now), feed)
  {
    match op
    case OpPoll(f, wanted, hashOnly, relay) => PollHashes(db, f, wanted, hashOnly, relay, now, feed);
    case OpStrip(e) => assert HashesStay(db, EntryStep(db, op, now), feed);
    case OpDeleteRelay(e, l) => DeleteKeepsKnown(db, {e}, feed);
    case OpDropUndelivered(ids) => DeleteKeepsKnown(db, (set e | e in ids && e in db.entries && !HasDelivery(db, e)), feed);
    case OpCollapse(p, batch) => DeleteKeepsKnown(db, (set e | e in batch && Collapsible(db, p, e)), feed);
  }

  lemma StepKeepsKnown(db: Db, op: Op, now: int, feed: int)
    requires KeysHold(db) && !Forgets(op, feed)
    ensures Known(db, feed) <= Known(Step(db, op, now), feed)
  {
    match op
    case ByUser(u) => UserStepAdds(db, u, now);
    case OnEntries(e) => EntryStepKeepsKnown(db, e, now, feed);
    case OnCatalog(c) => CatalogStepHashes(db, c, feed);
    case Retention(r) =>
  }

  /** The entries one step adds for an item of a feed. */
  function AddedFor(db: Db, d: Db, feed: int, hash: string): set<int> {
    set e | e in d.entries && e !in db.entries && d.entries[e].feed == feed && d.entries[e].hash == hash
  }

  /** How often an item became an entry during a run. */
  function TimesAdded(db: Db, ops: seq<Timed>, feed: int, hash: string): nat
    decreases |ops|
  {
    if ops == [] then 0
    else
      var d := Step(db, ops[0].op, ops[0].now);
      |AddedFor(db, d, feed, hash)| + TimesAdded(d, ops[1..], feed, hash)
  }

  lemma PollAddsUnknown(db: Db, f: int, wanted: seq<Item>, hashOnly: set<string>, relay: bool, now: int, e: int)
    requires KeysHold(db)
    requires var d := EntryStep(db, OpPoll(f, wanted, hashOnly, relay), now);
             e in d.entries && e !in db.entries
    ensures var d := EntryStep(db, OpPoll(f, wanted, hashOnly, relay), now);
            d.entries[e].feed == f && d.entries[e].hash !in Known(db, f)
  {
    var rows := Fresh(wanted, Known(db, f));
    FreshSound(wanted, Known(db, f));
    InsertedEntries(db, f, rows, relay, now);
    assert rows[e - db.nextEntry] in rows;
  }

  lemma EntryStepAdds(db: Db, op: EntryOp, now: int)
    requires !op.OpPoll?
    ensures EntryStep(db, op, now).entries.Keys <= db.entries.Keys
  {
  }

  lemma UserStepAdds(db: Db, op: UserOp, now: int)
    ensures UserStep(db, op, now).entries == db.entries && UserStep(db, op, now).dedup == db.dedup
  {
  }

  lemma RetentionStepAdds(db: Db, op: RetentionOp, now: int)
    ensures RetentionStep(db, op, now).entries.Keys <= db.entries.Keys
  {
  }

  lemma OnlyPollsAdd(db: Db, op: Op, now: int)
    requires !(op.OnEntries? && op.e.OpPoll?)
    ensures Step(db, op, now).entries.Keys <= db.entries.Keys
  {
    match op
    case ByUser(u) => UserStepAdds(db, u, now);
    case OnEntries(e) => EntryStepAdds(db, e, now);
    case OnCatalog(c) => CatalogStepHashes(db, c, 0);
    case Retention(r) => RetentionStepAdds(db, r, now);
  }

  lemma AddedAtMostOne(db: Db, d: Db, feed: int, hash: string)
    requires HashesUnique(d)
    ensures |AddedFor(db, d, feed, hash)| <= 1
  {
    var added := AddedFor(db, d, feed, hash);
    forall x, y | x in added && y in added ensures x == y {
      assert SameKey(d.entries[x], d.entries[y]);
    }
    AtMostOne(added);
  }

  /** Only a poll adds entries, and only for items the feed did not know. */
  lemma AddedWasUnknown(db: Db, op: Op, now: int, feed: int, hash: string)
    requires Inv(db) && Allowed(db, op)
    ensures |AddedFor(db, Step(db, op, now), feed, hash)| <= 1
    ensures AddedFor(db, Step(db, op, now), feed, hash) != {} ==> hash !in Known(db, feed) && hash in Known(Step(db, op, now), feed)
  {
    StepKeepsInvariant(db, op, now);
    AddedAtMostOne(db, Step(db, op, now), feed, hash);
    var added := AddedFor(db, Step(db, op, now), feed, hash);
    if added != {} {
      var e := Pick(added);
      if op.OnEntries? && op.e.OpPoll? {
        PollAddsUnknown(db, op.e.feed, op.e.wanted, op.e.hashOnly, op.e.relay, now, e);
      } else {
        OnlyPollsAdd(db, op, now);
      }
    }
  }

  /** Over a run that forgets nothing, an item becomes an entry at most once, and never if it was known before. */
  lemma {:induction false} BecomesAnEntryAtMostOnce(db: Db, ops: seq<Timed>, feed: int, hash: string)
    requires Inv(db) && AllAllowed(db, ops)
    requires forall i :: 0 <= i < |ops| ==> !Forgets(ops[i].op, feed)
    ensures TimesAdded(db, ops, feed, hash) <= (if hash in Known(db, feed) then 0 else 1)
    ensures Known(db, feed) <= Known(Run(db, ops), feed)
    decreases |ops|
  {
    if ops != [] {
      var d := Step(db, ops[0].op, ops[0].now);
      StepKeepsInvariant(db, ops[0].op, ops[0].now);
      StepKeepsKnown(db, ops[0].op, ops[0].now, feed);
      AddedWasUnknown(db, ops[0].op, ops[0].now, feed, hash);
      BecomesAnEntryAtMostOnce(d, ops[1..], feed, hash);
    }
  }

  // --------------------------------------------------------- stars and retention

  /** No cleanup or collapse step deletes a starred entry. HiddenBefore does not look at stars: the invariant keeps it away. */
  lemma StarredSurvivesRetention(db: Db, op: RetentionOp, now: int, k: UserEntry)
    requires Inv(db) && k in db.marks && db.marks[k].starred
    ensures k.entry in RetentionStep(db, op, now).entries && k in RetentionStep(db, op, now).marks
  {
  }

  lemma StarredSurvivesCollapse(db: Db, p: CollapseParams, batch: set<int>, now: int, k: UserEntry)
    requires Inv(db) && k in db.marks && db.marks[k].starred
    ensures var d := EntryStep(db, OpCollapse(p, batch), now); k.entry in d.entries && k in d.marks
  {
  }

  // -------------------------------------------------------------- moving a feed

  predicate Follows(db: Db, user: int, category: Option<int>) {
    category.Some? && Follow(category.value, user) in db.followers
  }

  /** Who reads a feed after it moved. */
  lemma MoveSubscriptions(db: Db, feed: int, newCat: Option<int>, user: int, other: int)
    requires Inv(db) && feed in db.feeds && db.feeds[feed].category != newCat
    ensures var d := MoveFeed(db, feed, newCat);
            && (other != feed ==> (Sub(user, other) in d.subs <==> Sub(user, other) in db.subs))
            && (Sub(user, feed) in d.subs <==>
                  Follows(db, user, newCat) || (Sub(user, feed) in db.subs && !Follows(db, user, db.feeds[feed].category)))
  {
  }

  /** Whoever follows neither category, or both, keeps the subscription and every row untouched. */
  lemma MoveLeavesOthersAlone(db: Db, feed: int, newCat: Option<int>, user: int, entry: int)
    requires Inv(db) && feed in db.feeds
    requires Follows(db, user, db.feeds[feed].category) == Follows(db, user, newCat)
    ensures var d := MoveFeed(db, feed, newCat); var k := UserEntry(entry, user);
            && (Sub(user, feed) in d.subs <==> Sub(user, feed) in db.subs)
            && (k in d.unread <==> k in db.unread) && (k in db.unread ==> d.unread[k] == db.unread[k])
            && (k in d.marks <==> k in db.marks) && (k in db.marks ==> d.marks[k] == db.marks[k])
  {
    var oldCat := db.feeds[feed].category;
    var d0 := db.(feeds := db.feeds[feed := db.feeds[feed].(category := newCat)]);
    var lose := Losers(d0, feed, oldCat, newCat);
    var d1 := UnsubscribePairs(d0, lose);
    var gain := Gainers(d1, feed, oldCat, newCat);
    assert forall f :: Sub(user, f) !in lose;
    assert Sub(user, feed) !in gain by {
      if newCat.Some? && oldCat != newCat && user in FollowersOf(d1, newCat.value) {
        assert Follow(oldCat.value, user) in db.followers;
        assert Sub(user, feed) in db.subs;
      }
    }
    assert forall p :: p in gain ==> p.feed == feed && p.user != user;
    assert UserEntry(entry, user) !in BackfillKeys(d1, gain);
  }

  // ------------------------------------------------------ the unsubscribed owner

  const LONELY: Db := Db(map[1 := Feed(None, Full, None, "")], {}, {}, {},
                         map[1 := Entry(1, "a", 10, 10, None)], map[], map[], {}, map[], {}, map[], 2, 2)

  /** The backfill does not look at removals: whatever is left of them, the entry comes back unread. */
  lemma BackfilledIsUnread(db: Db, user: int, entry: int)
    requires entry in db.entries && entry in Backfill(db, db.entries[entry].feed)
    ensures UserEntry(entry, user) in SubscribePairs(db, {Sub(user, db.entries[entry].feed)}).unread
  {
  }

  lemma LonelyHolds()
    ensures Inv(LONELY) && !Allowed(LONELY, ByUser(OpRemoveKeepPayload(7, 1)))
  {
  }

  lemma OrphanRemovalLeft()
    ensures var d := RemoveKeepPayload(LONELY, 7, 1, 20);
            d.entries == LONELY.entries && d.feeds == LONELY.feeds && d.subs == {} && MarkedRemoved(d, 7, 1)
            && 1 in Backfill(d, 1)
  {
  }

  /**
    A webhook delivered after its owner unsubscribed leaves a removal row
    behind; when the owner subscribes again, the entry is unread and removed
    at the same time.
   */
  lemma OrphanRemovalResurfaces()
    ensures Inv(LONELY) && !Allowed(LONELY, ByUser(OpRemoveKeepPayload(7, 1)))
    ensures var d := SubscribeOne(RemoveKeepPayload(LONELY, 7, 1, 20), 7, 1);
            d.Ok? && StatusOf(d.value, 7, 1) == IsUnread && MarkedRemoved(d.value, 7, 1) && !Inv(d.value)
  {
    LonelyHolds();
    OrphanRemovalLeft();
    BackfilledIsUnread(RemoveKeepPayload(LONELY, 7, 1, 20), 7, 1);
    ResubscribedOrphan(RemoveKeepPayload(LONELY, 7, 1, 20));
  }

  lemma ResubscribedOrphan(d: Db)
    requires 1 in d.feeds && 1 in d.entries && d.entries[1].feed == 1 && d.subs == {} && MarkedRemoved(d, 7, 1)
    requires UserEntry(1, 7) in SubscribePairs(d, {Sub(7, 1)}).unread
    ensures var r := SubscribePairs(d, {Sub(7, 1)}); StatusOf(r, 7, 1) == IsUnread && MarkedRemoved(r, 7, 1) && !Inv(r)
  {
  }

  // ------------------------------------------------------- the subscribe backfill

  /** The oldest element of a non-empty pool. */
  lemma HasOldest(db: Db, pool: set<int>) returns (m: int)
    requires pool <= db.entries.Keys && pool != {}
    ensures m in pool && forall x :: x in pool && x != m ==> Newer(db, x, m)
    decreases |pool|
  {
    m := Pick(pool);
    if pool != {m} {
      var o := HasOldest(db, pool - {m});
      if Newer(db, m, o) {
        m := o;
      } else {
        assert forall x :: x in pool && x != m && x != o ==> Newer(db, x, o) && Newer(db, o, m);
      }
    }
  }

  /** Newest picks min(count, |pool|) entries, and nothing it leaves out is newer than anything it picks. */
  lemma {:induction false} NewestIsTheTop(db: Db, pool: set<int>, count: nat)
    requires pool <= db.entries.Keys
    ensures |Newest(db, pool, count)| == Min(count, |pool|)
    ensures forall a, b :: a in Newest(db, pool, count) && b in pool && b !in Newest(db, pool, count) ==> Newer(db, a, b)
    decreases |pool|
  {
    if pool == {} {
      assert Newest(db, pool, count) == {};
    } else {
      var m := HasOldest(db, pool);
      var rest := pool - {m};
      NewestIsTheTop(db, rest, count);
      OldestRanksLast(db, pool, m);
      SubsetSize(Newest(db, rest, count), rest);
      NewestNext(db, pool, count, m);
    }
  }

  /** Adding an element older than all others adds it to the top exactly when there is room. */
  lemma NewestNext(db: Db, pool: set<int>, count: nat, m: int)
    requires pool <= db.entries.Keys && m in pool && forall x :: x in pool && x != m ==> Newer(db, x, m)
    ensures Newest(db, pool, count) == Newest(db, pool - {m}, count) + (if |pool - {m}| < count then {m} else {})
    ensures m !in Newest(db, pool - {m}, count)
  {
    OldestRanksLast(db, pool, m);
    var top := Newest(db, pool - {m}, count) + (if |pool - {m}| < count then {m} else {});
    forall e ensures e in Newest(db, pool, count) <==> e in top {
      if e in pool && e != m {
        assert Rank(db, pool, e) == Rank(db, pool - {m}, e);
      }
    }
  }

  lemma OldestRanksLast(db: Db, pool: set<int>, m: int)
    requires pool <= db.entries.Keys && m in pool && forall x :: x in pool && x != m ==> Newer(db, x, m)
    ensures Rank(db, pool, m) == |pool - {m}| && |pool| == |pool - {m}| + 1
    ensures forall x :: x in pool - {m} ==> Rank(db, pool, x) == Rank(db, pool - {m}, x)
  {
    assert (set y | y in pool && Newer(db, y, m)) == pool - {m};
    forall x | x in pool - {m} ensures Rank(db, pool, x) == Rank(db, pool - {m}, x) {
      assert (set y | y in pool && Newer(db, y, x)) == (set y | y in pool - {m} && Newer(db, y, x));
    }
  }
}
