/** The outline tree of an export, and the walk of an import over any tree. */
module OpmlTree {
  import opened Prelude
  import opened Text
  import opened Opml

  datatype Outline = Outline(text: string, title: string, kind: string, xmlUrl: string, url: string, attrs: Attrs, children: seq<Outline>)

  datatype FeedEntry = FeedEntry(title: string, feedUrl: string, category: string, settings: Settings, complaints: seq<BadAttr>)

  // ------------------------------------------------------------------ import

  /** isRSSOutline. */
  predicate IsFeed(o: Outline) {
    Lowered(o.kind) == "rss" || Trim(o.xmlUrl) != ""
  }

  function FeedUrl(o: Outline): string {
    if Trim(o.xmlUrl) != "" then Trim(o.xmlUrl) else Trim(o.url)
  }

  function TitleOf(o: Outline): string {
    if Trim(o.title) != "" then Trim(o.title) else Trim(o.text)
  }

  function EntryOf(o: Outline, category: string): FeedEntry {
    FeedEntry(TitleOf(o), FeedUrl(o), category, ReadSettings(o.attrs).0, ReadSettings(o.attrs).1)
  }

  /** A folder without a title passes its parent's on. */
  function Inherited(o: Outline, category: string): string {
    if TitleOf(o) != "" then TitleOf(o) else category
  }

  /** collectOutlineFeeds as a function: a feed outline is a leaf, whatever it contains. */
  function Collected(o: Outline, category: string): seq<FeedEntry> {
    if IsFeed(o) then (if FeedUrl(o) == "" then [] else [EntryOf(o, category)])
    else AllCollected(o.children, Inherited(o, category))
  }

  function AllCollected(os: seq<Outline>, category: string): seq<FeedEntry> {
    if os == [] then [] else Collected(os[0], category) + AllCollected(os[1..], category)
  }

  /**
    One outline of an import. Of type rss in any case, or with an xmlUrl
    whatever its type, it is a feed: a leaf, dropped without an address, which
    is the xmlUrl or else the url. Anything else is a folder that hands its
    title or text, or else its parent's title, down to its children.
   */
  lemma CollectedIs(o: Outline, category: string)
    ensures var k := Trim(o.kind);
            var feed := !Blank(o.xmlUrl) || (|k| == 3 && k[0] in {'r', 'R'} && k[1] in {'s', 'S'} && k[2] in {'s', 'S'});
            var title := if !Blank(o.title) then Trim(o.title) else Trim(o.text);
            && (feed && Blank(o.xmlUrl) && Blank(o.url) ==> Collected(o, category) == [])
            && (feed && !(Blank(o.xmlUrl) && Blank(o.url)) ==>
                  Collected(o, category) == [FeedEntry(title, if !Blank(o.xmlUrl) then Trim(o.xmlUrl) else Trim(o.url), category,
                                                       ReadSettings(o.attrs).0, ReadSettings(o.attrs).1)])
            && (!feed ==> Collected(o, category) == AllCollected(o.children, if title != "" then title else category))
  {
    RssInAnyCase(Trim(o.kind));
  }

  lemma RssInAnyCase(k: string)
    ensures ToLower(k) == "rss" <==> |k| == 3 && k[0] in {'r', 'R'} && k[1] in {'s', 'S'} && k[2] in {'s', 'S'}
  {
    assert forall c: char :: LowerChar(c) == 'r' <==> c in {'r', 'R'};
    assert forall c: char :: LowerChar(c) == 's' <==> c in {'s', 'S'};
    if |k| == 3 {
      assert ToLower(k) == [LowerChar(k[0]), LowerChar(k[1]), LowerChar(k[2])];
    }
  }

  lemma {:induction false} CollectedMore(os: seq<Outline>, more: seq<Outline>, category: string)
    ensures AllCollected(os + more, category) == AllCollected(os, category) + AllCollected(more, category)
    decreases |os|
  {
    if os == [] {
      assert os + more == more;
    } else {
      assert (os + more)[0] == os[0] && (os + more)[1..] == os[1..] + more;
      CollectedMore(os[1..], more, category);
    }
  }

  lemma OneCollected(o: Outline, category: string)
    ensures AllCollected([o], category) == Collected(o, category)
  {
  }

  lemma NextChild(os: seq<Outline>, i: nat, category: string)
    requires i < |os|
    ensures AllCollected(os[i..], category) == Collected(os[i], category) + AllCollected(os[i + 1..], category)
  {
  }

  /** Appending the next part of what is still to come. */
  lemma Regroup<T>(a: seq<T>, b: seq<T>, c: seq<T>, rest: seq<T>, all: seq<T>)
    requires a + rest == all && rest == b + c
    ensures (a + b) + c == all
  {
  }

  /** collectOutlineFeeds: the walk that appends to the slice it is given. */
  method CollectOutlineFeeds(o: Outline, category: string, out0: seq<FeedEntry>) returns (out: seq<FeedEntry>)
    ensures out == out0 + Collected(o, category)
    decreases o, 1
  {
    if IsFeed(o) {
      if FeedUrl(o) == "" {
        return out0;
      }
      return out0 + [EntryOf(o, category)];
    }
    var folder := TitleOf(o);
    if folder == "" && |o.children| > 0 {
      folder := category;
    }
    var next := category;
    if folder != "" {
      next := folder;
    }
    out := CollectChildren(o, next, out0);
  }

  /** The loop over the children of a folder. */
  method CollectChildren(o: Outline, category: string, out0: seq<FeedEntry>) returns (out: seq<FeedEntry>)
    ensures out == out0 + AllCollected(o.children, category)
    decreases o, 0
  {
    ghost var all := out0 + AllCollected(o.children, category);
    out := out0;
    var i := 0;
    assert o.children[0..] == o.children;
    while i < |o.children|
      invariant i <= |o.children| && out + AllCollected(o.children[i..], category) == all
    {
      NextChild(o.children, i, category);
      Regroup(out, Collected(o.children[i], category), AllCollected(o.children[i + 1..], category), AllCollected(o.children[i..], category), all);
      out := CollectOutlineFeeds(o.children[i], category, out);
      i := i + 1;
    }
  }

  // ------------------------------------------------------------------ export

  datatype ExportCategory = ExportCategory(id: int, title: string)

  datatype ExportFeed = ExportFeed(title: string, feedUrl: string, category: Option<int>, settings: Settings)

  function FeedTitle(f: ExportFeed): string {
    if Trim(f.title) != "" then Trim(f.title) else f.feedUrl
  }

  /** writeFeedOutline. */
  function FeedOutline(f: ExportFeed): Outline {
    Outline(Trim(FeedTitle(f)), Trim(FeedTitle(f)), "rss", Trim(f.feedUrl), "", WriteSettings(f.settings), [])
  }

  function FeedOutlines(feeds: seq<ExportFeed>): (r: seq<Outline>)
    ensures |r| == |feeds| && forall i :: 0 <= i < |r| ==> r[i] == FeedOutline(feeds[i])
  {
    seq(|feeds|, i requires 0 <= i < |feeds| => FeedOutline(feeds[i]))
  }

  function Folder(c: ExportCategory, feeds: seq<ExportFeed>): Outline {
    Outline(Trim(c.title), Trim(c.title), "", "", "", NO_ATTRS, FeedOutlines(feeds))
  }

  // -------------------------------------------------------------- what to expect

  /** What import should make of an exported feed that ends up in a category. */
  function Restored(f: ExportFeed, category: string): FeedEntry {
    FeedEntry(if Trim(f.title) != "" then Trim(f.title) else Trim(f.feedUrl), Trim(f.feedUrl), category,
              Normal(f.settings), if ValidMode(f.settings) then [] else [BadStoreMode])
  }

  /** The title of the first category with that id; blank when there is none. */
  function CategoryTitle(categories: seq<ExportCategory>, category: Option<int>): string {
    if categories == [] || category.None? then ""
    else if categories[0].id == category.value then Trim(categories[0].title)
    else CategoryTitle(categories[1..], category)
  }

  /** The entry of a feed under a title; none without a URL. */
  function Entry(f: ExportFeed, title: string): seq<FeedEntry> {
    if Trim(f.feedUrl) == "" then [] else [Restored(f, title)]
  }

  function EntryUnder(title: string): ExportFeed -> seq<FeedEntry> {
    (f: ExportFeed) => Entry(f, title)
  }

  /** The entry of a feed under the title of its category. */
  function EntryIn(categories: seq<ExportCategory>): ExportFeed -> seq<FeedEntry> {
    (f: ExportFeed) => Entry(f, CategoryTitle(categories, f.category))
  }

  /** The entries of all feeds, each once. */
  function Total<A, B>(back: A -> seq<B>, s: seq<A>): multiset<B>
    decreases |s|
  {
    if s == [] then multiset{} else Total(back, s[..|s| - 1]) + multiset(back(s[|s| - 1]))
  }

  /** The same of the chosen categories only. */
  function Chosen<B>(back: ExportFeed -> seq<B>, feeds: seq<ExportFeed>, chosen: set<Option<int>>): multiset<B>
    decreases |feeds|
  {
    if feeds == [] then multiset{}
    else
      var f := feeds[|feeds| - 1];
      Chosen(back, feeds[..|feeds| - 1], chosen) + (if f.category in chosen then multiset(back(f)) else multiset{})
  }

  function In(feeds: seq<ExportFeed>, category: Option<int>): seq<ExportFeed>
    decreases |feeds|
  {
    if feeds == [] then []
    else
      In(feeds[..|feeds| - 1], category) + (if feeds[|feeds| - 1].category == category then [feeds[|feeds| - 1]] else [])
  }

  predicate AllFit(feeds: seq<ExportFeed>) {
    forall i :: 0 <= i < |feeds| ==> Fits(feeds[i].settings)
  }

  lemma RssIsAFeed(o: Outline)
    requires o.kind == "rss"
    ensures IsFeed(o)
  {
  }

  lemma UrlStays(o: Outline, url: string)
    requires o.xmlUrl == Trim(url) && o.url == ""
    ensures FeedUrl(o) == Trim(url)
  {
    TrimIsTrimmed(url);
    TrimIsTrimmed("");
  }

  lemma TitleStays(o: Outline, title: string)
    requires o.title == Trim(title) && o.text == Trim(title)
    ensures TitleOf(o) == Trim(title)
  {
    TrimIsTrimmed(title);
  }

  lemma CollectedFeed(o: Outline, f: ExportFeed, category: string)
    requires IsFeed(o) && FeedUrl(o) == Trim(f.feedUrl) && TitleOf(o) == Trim(FeedTitle(f))
    requires ReadSettings(o.attrs) == (Normal(f.settings), if ValidMode(f.settings) then [] else [BadStoreMode])
    ensures Collected(o, category) == Entry(f, category)
  {
    TrimIsTrimmed(f.title);
  }

  lemma FeedRoundTrip(f: ExportFeed, category: string)
    requires Fits(f.settings)
    ensures Collected(FeedOutline(f), category) == Entry(f, category)
  {
    RssIsAFeed(FeedOutline(f));
    UrlStays(FeedOutline(f), f.feedUrl);
    TitleStays(FeedOutline(f), FeedTitle(f));
    SettingsRoundTrip(f.settings);
    CollectedFeed(FeedOutline(f), f, category);
  }

  // ------------------------------------------------------- counting entries

  function Flatten<T>(parts: seq<seq<T>>): seq<T> {
    if parts == [] then [] else parts[0] + Flatten(parts[1..])
  }

  lemma {:induction false} FlattenNext<T>(parts: seq<seq<T>>, part: seq<T>)
    ensures Flatten(parts + [part]) == Flatten(parts) + part
  {
    if parts == [] {
      assert [part][1..] == [];
    } else {
      assert (parts + [part])[1..] == parts[1..] + [part];
      FlattenNext(parts[1..], part);
    }
  }

  /** What comes out part by part is counted feed by feed. */
  lemma {:induction false} FlattenTotal<A, B>(parts: seq<seq<B>>, s: seq<A>, back: A -> seq<B>)
    requires |parts| == |s| && forall i :: 0 <= i < |s| ==> parts[i] == back(s[i])
    ensures multiset(Flatten(parts)) == Total(back, s)
    decreases |s|
  {
    if s != [] {
      var n := |s| - 1;
      FlattenTotal(parts[..n], s[..n], back);
      FlattenNext(parts[..n], parts[n]);
      assert parts == parts[..n] + [parts[n]];
    }
  }

  /** The chosen feeds of one category are the feeds in it. */
  lemma {:induction false} TotalIn<B>(back: ExportFeed -> seq<B>, under: ExportFeed -> seq<B>, feeds: seq<ExportFeed>, category: Option<int>)
    requires forall f: ExportFeed :: f.category == category ==> under(f) == back(f)
    ensures Total(under, In(feeds, category)) == Chosen(back, feeds, {category})
    decreases |feeds|
  {
    if feeds != [] {
      var init, f := feeds[..|feeds| - 1], feeds[|feeds| - 1];
      TotalIn(back, under, init, category);
      if f.category == category {
        assert (In(init, category) + [f])[..|In(init, category)|] == In(init, category);
      } else {
        assert In(feeds, category) == In(init, category);
      }
    }
  }

  /** Choosing one more category adds exactly its feeds. */
  lemma {:induction false} ChosenMore<B>(back: ExportFeed -> seq<B>, feeds: seq<ExportFeed>, chosen: set<Option<int>>, category: Option<int>)
    requires category !in chosen
    ensures Chosen(back, feeds, chosen + {category}) == Chosen(back, feeds, chosen) + Chosen(back, feeds, {category})
    decreases |feeds|
  {
    if feeds != [] {
      ChosenMore(back, feeds[..|feeds| - 1], chosen, category);
    }
  }

  lemma {:induction false} ChosenNone<B>(back: ExportFeed -> seq<B>, feeds: seq<ExportFeed>)
    ensures Chosen(back, feeds, {}) == multiset{}
    decreases |feeds|
  {
    if feeds != [] {
      ChosenNone(back, feeds[..|feeds| - 1]);
    }
  }

  lemma {:induction false} ChosenAll<B>(back: ExportFeed -> seq<B>, feeds: seq<ExportFeed>, chosen: set<Option<int>>)
    requires forall f :: f in feeds ==> f.category in chosen
    ensures Chosen(back, feeds, chosen) == Total(back, feeds)
    decreases |feeds|
  {
    if feeds != [] {
      ChosenAll(back, feeds[..|feeds| - 1], chosen);
    }
  }

  /** What each outline of a folder contributes. */
  function Parts(os: seq<Outline>, category: string): (r: seq<seq<FeedEntry>>)
    ensures |r| == |os| && forall i :: 0 <= i < |r| ==> r[i] == Collected(os[i], category)
  {
    seq(|os|, i requires 0 <= i < |os| => Collected(os[i], category))
  }

  lemma {:induction false} CollectedParts(os: seq<Outline>, category: string)
    ensures AllCollected(os, category) == Flatten(Parts(os, category))
    decreases |os|
  {
    if os != [] {
      CollectedParts(os[1..], category);
      assert Parts(os, category)[1..] == Parts(os[1..], category);
    }
  }

  lemma FeedParts(feeds: seq<ExportFeed>, title: string)
    requires AllFit(feeds)
    ensures var parts := Parts(FeedOutlines(feeds), title);
            |parts| == |feeds| && forall i :: 0 <= i < |feeds| ==> parts[i] == EntryUnder(title)(feeds[i])
  {
    forall i | 0 <= i < |feeds| ensures Parts(FeedOutlines(feeds), title)[i] == EntryUnder(title)(feeds[i]) {
      FeedRoundTrip(feeds[i], title);
    }
  }

  lemma {:induction false} InFits(feeds: seq<ExportFeed>, category: Option<int>)
    requires AllFit(feeds)
    ensures AllFit(In(feeds, category))
    decreases |feeds|
  {
    if feeds != [] {
      InFits(feeds[..|feeds| - 1], category);
    }
  }

  /** The feeds of one category, written side by side, come back under one title. */
  lemma SiblingsRoundTrip(categories: seq<ExportCategory>, feeds: seq<ExportFeed>, category: Option<int>)
    requires AllFit(feeds)
    ensures multiset(AllCollected(FeedOutlines(In(feeds, category)), CategoryTitle(categories, category)))
         == Chosen(EntryIn(categories), feeds, {category})
  {
    var title, group := CategoryTitle(categories, category), In(feeds, category);
    InFits(feeds, category);
    CollectedParts(FeedOutlines(group), title);
    FeedParts(group, title);
    FlattenTotal(Parts(FeedOutlines(group), title), group, EntryUnder(title));
    TotalIn(EntryIn(categories), EntryUnder(title), feeds, category);
  }

  function CategoriesOf(feeds: seq<ExportFeed>): set<Option<int>> {
    set f | f in feeds :: f.category
  }

  /** Every exported feed with a URL, once, under the title of its category. */
  function Everything(categories: seq<ExportCategory>, feeds: seq<ExportFeed>): multiset<FeedEntry> {
    Total(EntryIn(categories), feeds)
  }

  // ------------------------------------------------------------------ Generate

  ghost predicate Groups(feeds: seq<ExportFeed>, byCategory: map<int, seq<ExportFeed>>) {
    && (forall id :: id in byCategory <==> Some(id) in CategoriesOf(feeds))
    && (forall id :: id in byCategory ==> byCategory[id] == In(feeds, Some(id)))
  }

  lemma InNext(feeds: seq<ExportFeed>, f: ExportFeed, category: Option<int>)
    ensures In(feeds + [f], category) == In(feeds, category) + (if f.category == category then [f] else [])
  {
  }

  lemma CategoriesNext(feeds: seq<ExportFeed>, f: ExportFeed)
    ensures CategoriesOf(feeds + [f]) == CategoriesOf(feeds) + {f.category}
  {
  }

  lemma {:induction false} InEmpty(feeds: seq<ExportFeed>, category: Option<int>)
    ensures category !in CategoriesOf(feeds) ==> In(feeds, category) == []
    ensures category in CategoriesOf(feeds) ==> In(feeds, category) != []
    decreases |feeds|
  {
    if feeds != [] {
      var init, f := feeds[..|feeds| - 1], feeds[|feeds| - 1];
      assert feeds == init + [f];
      InEmpty(init, category);
      CategoriesNext(init, f);
    }
  }

  /** One more feed with a category goes to the end of its group. */
  lemma GroupsNext(feeds: seq<ExportFeed>, byCategory: map<int, seq<ExportFeed>>, f: ExportFeed, id: int)
    requires Groups(feeds, byCategory) && f.category == Some(id)
    ensures Groups(feeds + [f], byCategory[id := (if id in byCategory then byCategory[id] else []) + [f]])
  {
    CategoriesNext(feeds, f);
    InEmpty(feeds, Some(id));
    forall c ensures In(feeds + [f], c) == if c == Some(id) then In(feeds, c) + [f] else In(feeds, c) {
      InNext(feeds, f, c);
    }
  }

  /** One without a category changes no group. */
  lemma GroupsSame(feeds: seq<ExportFeed>, byCategory: map<int, seq<ExportFeed>>, f: ExportFeed)
    requires Groups(feeds, byCategory) && f.category.None?
    ensures Groups(feeds + [f], byCategory)
  {
    CategoriesNext(feeds, f);
    forall id ensures In(feeds + [f], Some(id)) == In(feeds, Some(id)) {
      InNext(feeds, f, Some(id));
    }
  }

  method Group(feeds: seq<ExportFeed>) returns (byCategory: map<int, seq<ExportFeed>>, uncategorized: seq<ExportFeed>)
    ensures Groups(feeds, byCategory) && uncategorized == In(feeds, None)
  {
    byCategory, uncategorized := map[], [];
    var i := 0;
    while i < |feeds|
      invariant i <= |feeds| && Groups(feeds[..i], byCategory) && uncategorized == In(feeds[..i], None)
    {
      var f := feeds[i];
      assert feeds[..i + 1] == feeds[..i] + [f];
      InNext(feeds[..i], f, None);
      if f.category.Some? {
        var id := f.category.value;
        GroupsNext(feeds[..i], byCategory, f, id);
        byCategory := byCategory[id := (if id in byCategory then byCategory[id] else []) + [f]];
      } else {
        GroupsSame(feeds[..i], byCategory, f);
        uncategorized := uncategorized + [f];
      }
      i := i + 1;
    }
    assert feeds[..i] == feeds;
  }

  /** The outlines written so far import as the feeds of the categories that are done. */
  ghost predicate Written(categories: seq<ExportCategory>, feeds: seq<ExportFeed>, body: seq<Outline>, done: set<Option<int>>) {
    multiset(AllCollected(body, "")) == Chosen(EntryIn(categories), feeds, done)
  }

  lemma WriteMore(categories: seq<ExportCategory>, feeds: seq<ExportFeed>, body: seq<Outline>, done: set<Option<int>>,
                  category: Option<int>, more: seq<Outline>)
    requires Written(categories, feeds, body, done) && category !in done && Written(categories, feeds, more, {category})
    ensures Written(categories, feeds, body + more, done + {category})
  {
    CollectedMore(body, more, "");
    ChosenMore(EntryIn(categories), feeds, done, category);
  }

  lemma {:induction false} FirstTitle(categories: seq<ExportCategory>, k: nat)
    requires k < |categories| && forall i :: 0 <= i < k ==> categories[i].id != categories[k].id
    ensures CategoryTitle(categories, Some(categories[k].id)) == Trim(categories[k].title)
    decreases |categories|
  {
    if k > 0 {
      FirstTitle(categories[1..], k - 1);
    }
  }

  lemma {:induction false} NoTitle(categories: seq<ExportCategory>, id: int)
    requires forall i :: 0 <= i < |categories| ==> categories[i].id != id
    ensures CategoryTitle(categories, Some(id)) == ""
    decreases |categories|
  {
    if categories != [] {
      NoTitle(categories[1..], id);
    }
  }

  lemma FolderCollected(c: ExportCategory, feeds: seq<ExportFeed>)
    ensures AllCollected([Folder(c, feeds)], "") == AllCollected(FeedOutlines(feeds), Trim(c.title))
  {
    var o := Folder(c, feeds);
    OneCollected(o, "");
    TrimIsTrimmed("");
    assert !IsFeed(o);
    TitleStays(o, c.title);
  }

  lemma FolderWritten(categories: seq<ExportCategory>, feeds: seq<ExportFeed>, k: nat)
    requires AllFit(feeds) && k < |categories| && forall i :: 0 <= i < k ==> categories[i].id != categories[k].id
    ensures Written(categories, feeds, [Folder(categories[k], In(feeds, Some(categories[k].id)))], {Some(categories[k].id)})
  {
    var id := categories[k].id;
    FirstTitle(categories, k);
    FolderCollected(categories[k], In(feeds, Some(id)));
    SiblingsRoundTrip(categories, feeds, Some(id));
  }

  lemma LooseWritten(categories: seq<ExportCategory>, feeds: seq<ExportFeed>, category: Option<int>)
    requires AllFit(feeds) && (category.Some? ==> forall i :: 0 <= i < |categories| ==> categories[i].id != category.value)
    ensures Written(categories, feeds, FeedOutlines(In(feeds, category)), {category})
  {
    if category.Some? {
      NoTitle(categories, category.value);
    }
    SiblingsRoundTrip(categories, feeds, category);
  }

  /** What is still to be written, once the first k categories have been looked at. */
  ghost predicate Remaining(categories: seq<ExportCategory>, feeds: seq<ExportFeed>, byCategory: map<int, seq<ExportFeed>>,
                            done: set<Option<int>>, k: nat)
    requires k <= |categories|
  {
    && (forall id :: id in byCategory ==> byCategory[id] == In(feeds, Some(id)) && byCategory[id] != [])
    && (forall id :: id in byCategory <==> Some(id) in CategoriesOf(feeds) && Some(id) !in done)
    && (forall i, id :: 0 <= i < k && id in byCategory ==> categories[i].id != id)
    && (forall c :: c in done ==> c.Some? && c in CategoriesOf(feeds))
  }

  lemma RemainingNext(categories: seq<ExportCategory>, feeds: seq<ExportFeed>, byCategory: map<int, seq<ExportFeed>>,
                      done: set<Option<int>>, k: nat)
    requires k < |categories| && Remaining(categories, feeds, byCategory, done, k)
    ensures var id := categories[k].id;
            if id in byCategory then Remaining(categories, feeds, byCategory - {id}, done + {Some(id)}, k + 1)
            else Remaining(categories, feeds, byCategory, done, k + 1)
  {
  }

  /** The folders, in the order of the categories; a second category with the same id finds nothing left. */
  method WriteFolders(categories: seq<ExportCategory>, feeds: seq<ExportFeed>, groups: map<int, seq<ExportFeed>>)
    returns (body: seq<Outline>, byCategory: map<int, seq<ExportFeed>>, ghost done: set<Option<int>>)
    requires AllFit(feeds) && Groups(feeds, groups)
    ensures Written(categories, feeds, body, done) && Remaining(categories, feeds, byCategory, done, |categories|)
  {
    body, byCategory, done := [], groups, {};
    ChosenNone(EntryIn(categories), feeds);
    forall id | id in groups ensures groups[id] != [] {
      InEmpty(feeds, Some(id));
    }
    var k := 0;
    while k < |categories|
      invariant k <= |categories|
      invariant Written(categories, feeds, body, done) && Remaining(categories, feeds, byCategory, done, k)
    {
      var id := categories[k].id;
      RemainingNext(categories, feeds, byCategory, done, k);
      if id in byCategory {
        FolderWritten(categories, feeds, k);
        var more := [Folder(categories[k], byCategory[id])];
        WriteMore(categories, feeds, body, done, Some(id), more);
        body := body + more;
        done := done + {Some(id)};
        byCategory := byCategory - {id};
      }
      k := k + 1;
    }
  }

  lemma WriteLeftover(categories: seq<ExportCategory>, feeds: seq<ExportFeed>, byCategory: map<int, seq<ExportFeed>>, body: seq<Outline>,
                      done: set<Option<int>>, id: int)
    requires AllFit(feeds) && Written(categories, feeds, body, done) && Remaining(categories, feeds, byCategory, done, |categories|)
    requires id in byCategory
    ensures Written(categories, feeds, body + FeedOutlines(byCategory[id]), done + {Some(id)})
    ensures Remaining(categories, feeds, byCategory - {id}, done + {Some(id)}, |categories|)
  {
    LooseWritten(categories, feeds, Some(id));
    WriteMore(categories, feeds, body, done, Some(id), FeedOutlines(byCategory[id]));
  }

  /** Feeds of categories that were not listed, in whatever order the map gives them. */
  method WriteLeftovers(categories: seq<ExportCategory>, feeds: seq<ExportFeed>, left: map<int, seq<ExportFeed>>, body0: seq<Outline>,
                        ghost done0: set<Option<int>>) returns (body: seq<Outline>, ghost done: set<Option<int>>)
    requires AllFit(feeds) && Written(categories, feeds, body0, done0) && Remaining(categories, feeds, left, done0, |categories|)
    ensures Written(categories, feeds, body, done) && done == CategoriesOf(feeds) - {None}
  {
    body, done := body0, done0;
    var byCategory := left;
    while byCategory != map[]
      invariant Written(categories, feeds, body, done) && Remaining(categories, feeds, byCategory, done, |categories|)
      decreases |byCategory|
    {
      ghost var some := Pick(byCategory.Keys);
      var id :| id in byCategory;
      WriteLeftover(categories, feeds, byCategory, body, done, id);
      body := body + FeedOutlines(byCategory[id]);
      done := done + {Some(id)};
      byCategory := byCategory - {id};
    }
    AllDone(categories, feeds, done);
  }

  lemma AllDone(categories: seq<ExportCategory>, feeds: seq<ExportFeed>, done: set<Option<int>>)
    requires Remaining(categories, feeds, map[], done, |categories|)
    ensures done == CategoriesOf(feeds) - {None}
  {
    forall c: Option<int> ensures c in done <==> c in CategoriesOf(feeds) && c != None {
      if c.Some? && c in CategoriesOf(feeds) {
        NothingLeft(categories, feeds, done, c.value);
      }
    }
  }

  lemma NothingLeft(categories: seq<ExportCategory>, feeds: seq<ExportFeed>, done: set<Option<int>>, id: int)
    requires Remaining(categories, feeds, map[], done, |categories|) && Some(id) in CategoriesOf(feeds)
    ensures Some(id) in done
  {
  }

  /**
    The body of Generate. Whatever order the leftovers come in, importing it
    gives every feed with a URL exactly once, under its category's trimmed
    title, with its settings in normal form.
   */
  method Generate(categories: seq<ExportCategory>, feeds: seq<ExportFeed>) returns (body: seq<Outline>)
    requires AllFit(feeds)
    ensures multiset(AllCollected(body, "")) == Everything(categories, feeds)
  {
    var groups, uncategorized := Group(feeds);
    var left: map<int, seq<ExportFeed>>;
    ghost var done;
    body, left, done := WriteFolders(categories, feeds, groups);
    body, done := WriteLeftovers(categories, feeds, left, body, done);
    LooseWritten(categories, feeds, None);
    WriteMore(categories, feeds, body, done, None, FeedOutlines(uncategorized));
    body := body + FeedOutlines(uncategorized);
    ChosenAll(EntryIn(categories), feeds, done + {None});
  }
}
