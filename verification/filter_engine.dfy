/**
  The filter engine: how the rules of a filter combine, which feeds it looks
  at, and a cache of compiled filters that nobody can notice.

  A rule is what it matches: a set of entries for a regular expression, a
  pattern looked up in the context for a query rule. `compiles` says that the
  trimmed pattern is neither empty nor too long, its field is known and its
  expression is valid; `orOp` that its op, trimmed and in lower case, is "or".
 */
module FilterEngine {
  import opened Prelude
  import opened Catalog

  datatype Rule = Rule(pattern: string, query: bool, hits: set<Item>, negate: bool, orOp: bool, compiles: bool)

  datatype ScopeItem = ScopeItem(feed: Option<int>, category: Option<int>)

  datatype Filter = Filter(id: int, updatedAt: int, matchAnyRule: bool, inverse: bool, scope: FeedScope,
                           scopeItems: seq<ScopeItem>, rules: seq<Rule>)

  datatype FeedScope = AllFeeds | Include | Exclude

  datatype Compiled = Compiled(id: int, matchAnyRule: bool, inverse: bool, scope: FeedScope, scopeItems: seq<ScopeItem>,
                               rules: seq<Rule>, hasQuery: bool)

  datatype Context = Context(feed: int, category: Option<int>, queryHits: Option<set<string>>)

  datatype EngineError = BadRule | TooManyRules | QueryUnsupported

  // ------------------------------------------------------------ combining rules

  /** ruleMatches. */
  predicate RuleMatches(x: Item, ctx: Context, r: Rule) {
    (if r.query then ctx.queryHits.Some? && r.pattern in ctx.queryHits.value else x in r.hits) != r.negate
  }

  /** Rules that can turn the verdict on; the others can only keep it on. */
  predicate Lifts(f: Compiled, k: nat)
    requires k < |f.rules|
  {
    k == 0 || f.matchAnyRule || f.rules[k].orOp
  }

  /** Some lifting rule matches, and so does every rule after it that does not lift. */
  ghost predicate Holds(x: Item, ctx: Context, f: Compiled, n: nat)
    requires n <= |f.rules|
  {
    exists k :: 0 <= k < n && Lifts(f, k) && RuleMatches(x, ctx, f.rules[k]) &&
      forall j :: k < j < n && !Lifts(f, j) ==> RuleMatches(x, ctx, f.rules[j])
  }

  /** What a filter means: no rules match nothing, and inverse turns the rest around. */
  ghost predicate Means(x: Item, ctx: Context, f: Compiled) {
    f.rules != [] && (Holds(x, ctx, f, |f.rules|) != f.inverse)
  }

  /** The left fold over the first n rules. */
  predicate Folded(x: Item, ctx: Context, f: Compiled, n: nat)
    requires 0 < n <= |f.rules|
  {
    var ok := RuleMatches(x, ctx, f.rules[n - 1]);
    if n == 1 then ok
    else if Lifts(f, n - 1) then Folded(x, ctx, f, n - 1) || ok
    else Folded(x, ctx, f, n - 1) && ok
  }

  predicate Accepts(x: Item, ctx: Context, f: Compiled) {
    f.rules != [] && (Folded(x, ctx, f, |f.rules|) != f.inverse)
  }

  /** The fold has the meaning above. */
  lemma {:induction false} FoldedIsHolds(x: Item, ctx: Context, f: Compiled, n: nat)
    requires 0 < n <= |f.rules|
    ensures Folded(x, ctx, f, n) <==> Holds(x, ctx, f, n)
  {
    if n == 1 {
      assert Lifts(f, 0);
    } else {
      FoldedIsHolds(x, ctx, f, n - 1);
      HoldsNext(x, ctx, f, n - 1);
    }
  }

  lemma AcceptsMeans(x: Item, ctx: Context, f: Compiled)
    ensures Accepts(x, ctx, f) <==> Means(x, ctx, f)
  {
    if f.rules != [] {
      FoldedIsHolds(x, ctx, f, |f.rules|);
    }
  }

  lemma HoldsNext(x: Item, ctx: Context, f: Compiled, n: nat)
    requires 0 < n < |f.rules|
    ensures var ok := RuleMatches(x, ctx, f.rules[n]);
            Holds(x, ctx, f, n + 1) <==> if Lifts(f, n) then Holds(x, ctx, f, n) || ok else Holds(x, ctx, f, n) && ok
  {
  }

  /** matchCompiled: the left fold means the above. */
  method MatchCompiled(x: Item, ctx: Context, f: Compiled) returns (matched: bool)
    ensures matched <==> Means(x, ctx, f)
    ensures matched <==> Accepts(x, ctx, f)
  {
    AcceptsMeans(x, ctx, f);
    if |f.rules| == 0 {
      return false;
    }
    var agg, initialized := false, false;
    var n := 0;
    while n < |f.rules|
      invariant n <= |f.rules| && (initialized <==> n > 0)
      invariant n > 0 ==> (agg <==> Folded(x, ctx, f, n))
    {
      var ok := RuleMatches(x, ctx, f.rules[n]);
      if !initialized {
        agg := ok;
        initialized := true;
      } else {
        if f.matchAnyRule {
          agg := agg || ok;
        } else if f.rules[n].orOp {
          agg := agg || ok;
        } else {
          agg := agg && ok;
        }
      }
      n := n + 1;
    }
    matched := if f.inverse then !agg else agg;
  }

  // ------------------------------------------------------------------ the scope

  predicate Covers(item: ScopeItem, ctx: Context) {
    (item.feed.Some? && item.feed.value == ctx.feed)
    || (item.category.Some? && ctx.category.Some? && item.category.value == ctx.category.value)
  }

  predicate Covered(items: seq<ScopeItem>, ctx: Context) {
    exists i :: 0 <= i < |items| && Covers(items[i], ctx)
  }

  predicate InScope(f: Compiled, ctx: Context) {
    match f.scope
    case AllFeeds => true
    case Include => Covered(f.scopeItems, ctx)
    case Exclude => !Covered(f.scopeItems, ctx)
  }

  lemma CoversIs(items: seq<ScopeItem>, ctx: Context)
    ensures forall i :: 0 <= i < |items| ==>
              (Covers(items[i], ctx) <==> items[i].feed == Some(ctx.feed) || (items[i].category.Some? && items[i].category == ctx.category))
  {
  }

  /** matchesFeedScope. */
  method MatchesFeedScope(f: Compiled, ctx: Context) returns (r: bool)
    ensures r == InScope(f, ctx)
    ensures f.scope == AllFeeds ==> r
    ensures f.scope == Include ==>
              (r <==> exists i :: 0 <= i < |f.scopeItems| && (f.scopeItems[i].feed == Some(ctx.feed)
                                                              || (f.scopeItems[i].category.Some? && f.scopeItems[i].category == ctx.category)))
    ensures f.scope == Exclude ==>
              (r <==> forall i :: 0 <= i < |f.scopeItems| ==> f.scopeItems[i].feed != Some(ctx.feed)
                                                              && !(f.scopeItems[i].category.Some? && f.scopeItems[i].category == ctx.category))
  {
    CoversIs(f.scopeItems, ctx);
    if f.scope.AllFeeds? {
      return true;
    }
    var i := 0;
    while i < |f.scopeItems|
      invariant i <= |f.scopeItems|
      invariant forall k :: 0 <= k < i ==> !Covers(f.scopeItems[k], ctx)
    {
      var item := f.scopeItems[i];
      if item.feed.Some? && item.feed.value == ctx.feed {
        return f.scope.Include?;
      }
      if item.category.Some? && ctx.category.Some? && item.category.value == ctx.category.value {
        return f.scope.Include?;
      }
      i := i + 1;
    }
    r := f.scope.Exclude?;
  }

  // ----------------------------------------------------------------- compiling

  predicate AllCompile(rules: seq<Rule>) {
    forall i :: 0 <= i < |rules| ==> rules[i].compiles
  }

  predicate HasQuery(rules: seq<Rule>) {
    exists i :: 0 <= i < |rules| && rules[i].query
  }

  /** What getCompiled answers when nothing is cached. */
  function Compile(f: Filter, maxRules: nat): Result<Compiled, EngineError> {
    if f.rules != [] && maxRules > 0 && |f.rules| > maxRules then Err(TooManyRules)
    else if !AllCompile(f.rules) then Err(BadRule)
    else Ok(Compiled(f.id, f.matchAnyRule, f.inverse, f.scope, f.scopeItems, f.rules, HasQuery(f.rules)))
  }

  /** compileFilter. */
  method CompileFilter(f: Filter) returns (r: Result<Compiled, EngineError>)
    ensures r == Compile(f, 0)
  {
    var rules: seq<Rule> := [];
    var hasQuery := false;
    var i := 0;
    while i < |f.rules|
      invariant i <= |f.rules| && rules == f.rules[..i]
      invariant forall k :: 0 <= k < i ==> f.rules[k].compiles
      invariant hasQuery <==> exists k :: 0 <= k < i && f.rules[k].query
    {
      if !f.rules[i].compiles {
        return Err(BadRule);
      }
      if f.rules[i].query {
        hasQuery := true;
      }
      rules := rules + [f.rules[i]];
      i := i + 1;
    }
    assert rules == f.rules;
    r := Ok(Compiled(f.id, f.matchAnyRule, f.inverse, f.scope, f.scopeItems, rules, hasQuery));
  }

  // ------------------------------------------------------------------ the cache

  datatype Key = Key(id: int, version: int)

  function KeyOf(f: Filter): Key {
    Key(f.id, f.updatedAt)
  }

  /** The filter is one of the recorded versions. */
  predicate Stored(f: Filter, history: map<Key, Filter>) {
    KeyOf(f) in history && history[KeyOf(f)] == f
  }

  class Engine {
    var cache: map<Key, Compiled>
    const maxRules: nat

    constructor (maxRules: nat)
      ensures cache == map[] && this.maxRules == maxRules
    {
      cache := map[];
      this.maxRules := maxRules;
    }

    /** `history` is every version of every filter; updated_at tells the versions of a filter apart. */
    ghost predicate Valid(history: map<Key, Filter>)
      reads this
    {
      && (forall k :: k in history ==> KeyOf(history[k]) == k)
      && (forall k :: k in cache ==> k in history && Compile(history[k], maxRules) == Ok(cache[k]))
      && (forall j, k :: j in cache && k in cache && j.id == k.id ==> j == k)
    }

    /** getCompiled: the answer never depends on the cache, which keeps one version of a filter. */
    method GetCompiled(f: Filter, ghost history: map<Key, Filter>) returns (r: Result<Compiled, EngineError>)
      requires Valid(history) && Stored(f, history)
      modifies this
      ensures Valid(history) && r == Compile(f, maxRules)
    {
      if |f.rules| == 0 {
        return Ok(Compiled(f.id, f.matchAnyRule, f.inverse, f.scope, f.scopeItems, [], false));
      }
      if maxRules > 0 && |f.rules| > maxRules {
        return Err(TooManyRules);
      }
      var key := KeyOf(f);
      if key in cache {
        return Ok(cache[key]);
      }
      r := CompileFilter(f);
      if r.Err? {
        return;
      }
      cache := (map k | k in cache && !(k.id == f.id && k.version != f.updatedAt) :: cache[k])[key := r.value];
    }

    /** Whether a filter is reported for an item, as matchEntry decides it. */
    ghost predicate Reports(f: Filter, x: Item, ctx: Context) {
      Compile(f, maxRules).Ok? && InScope(Compile(f, maxRules).value, ctx) && Accepts(x, ctx, Compile(f, maxRules).value)
    }

    ghost predicate Unusable(f: Filter, ctx: Context) {
      Compile(f, maxRules).Err?
      || (InScope(Compile(f, maxRules).value, ctx) && Compile(f, maxRules).value.hasQuery && ctx.queryHits.None?)
    }

    /** Filter by filter: whether it is reported, and whether strict mode refuses it. */
    ghost function Hits(filters: seq<Filter>, x: Item, ctx: Context): (r: seq<bool>)
      ensures |r| == |filters| && forall i :: 0 <= i < |r| ==> (r[i] <==> Reports(filters[i], x, ctx))
    {
      seq(|filters|, i requires 0 <= i < |filters| => Reports(filters[i], x, ctx))
    }

    ghost function Refusals(filters: seq<Filter>, ctx: Context): (r: seq<bool>)
      ensures |r| == |filters| && forall i :: 0 <= i < |r| ==> (r[i] <==> Unusable(filters[i], ctx))
    {
      seq(|filters|, i requires 0 <= i < |filters| => Unusable(filters[i], ctx))
    }

    /** The body of matchEntry's loop: false is a filter that is skipped or does not match. */
    method MatchOne(x: Item, ctx: Context, f: Filter, strict: bool, ghost history: map<Key, Filter>) returns (r: Result<bool, EngineError>)
      requires Valid(history) && Stored(f, history)
      modifies this
      ensures Valid(history)
      ensures r.Err? <==> strict && Unusable(f, ctx)
      ensures r.Ok? ==> (r.value <==> Reports(f, x, ctx))
    {
      var cf := GetCompiled(f, history);
      if cf.Err? {
        return if strict then Err(cf.error) else Ok(false);
      }
      var inScope := MatchesFeedScope(cf.value, ctx);
      if !inScope {
        return Ok(false);
      }
      if strict && cf.value.hasQuery && ctx.queryHits.None? {
        return Err(QueryUnsupported);
      }
      var matched := MatchCompiled(x, ctx, cf.value);
      r := Ok(matched);
    }

    /** matchEntry: the filters that match, in order; strict mode refuses what the lenient mode skips. */
    method MatchEntry(x: Item, ctx: Context, filters: seq<Filter>, strict: bool, ghost history: map<Key, Filter>)
      returns (r: Result<seq<int>, EngineError>)
      requires Valid(history) && forall i :: 0 <= i < |filters| ==> Stored(filters[i], history)
      modifies this
      ensures Valid(history)
      ensures r.Err? <==> strict && Any(Refusals(filters, ctx))
      ensures r.Ok? ==> r.value == Chosen(filters, Hits(filters, x, ctx))
    {
      ghost var hits, refusals := Hits(filters, x, ctx), Refusals(filters, ctx);
      r := MatchAll(x, ctx, filters, strict, history, hits, refusals);
    }

    /** The loop of matchEntry. */
    method MatchAll(x: Item, ctx: Context, filters: seq<Filter>, strict: bool, ghost history: map<Key, Filter>,
                    ghost hits: seq<bool>, ghost refusals: seq<bool>) returns (r: Result<seq<int>, EngineError>)
      requires Valid(history) && |hits| == |filters| == |refusals| && forall i :: 0 <= i < |filters| ==> Stored(filters[i], history)
      requires forall i :: 0 <= i < |filters| ==> (hits[i] <==> Reports(filters[i], x, ctx)) && (refusals[i] <==> Unusable(filters[i], ctx))
      modifies this
      ensures Valid(history)
      ensures r.Err? <==> strict && Any(refusals)
      ensures r.Ok? ==> r.value == Chosen(filters, hits)
    {
      var out: seq<int> := [];
      var i := 0;
      while i < |filters|
        invariant i <= |filters| && Valid(history)
        invariant strict ==> forall k :: 0 <= k < i ==> !refusals[k]
        invariant out == Chosen(filters[..i], hits[..i])
      {
        ChosenNext(filters, hits, i);
        var m := MatchOne(x, ctx, filters[i], strict, history);
        if m.Err? {
          assert refusals[i];
          return Err(m.error);
        }
        if m.value {
          out := out + [filters[i].id];
        }
        i := i + 1;
      }
      assert filters[..i] == filters && hits[..i] == hits;
      r := Ok(out);
    }
  }

  predicate Any(s: seq<bool>) {
    exists i :: 0 <= i < |s| && s[i]
  }

  /** The ids of the filters that hit, in order. */
  ghost function Chosen(filters: seq<Filter>, hits: seq<bool>): seq<int>
    requires |hits| == |filters|
    decreases |filters|
  {
    if filters == [] then []
    else
      var n := |filters| - 1;
      Chosen(filters[..n], hits[..n]) + (if hits[n] then [filters[n].id] else [])
  }

  lemma ChosenNext(filters: seq<Filter>, hits: seq<bool>, i: nat)
    requires |hits| == |filters| && i < |filters|
    ensures Chosen(filters[..i + 1], hits[..i + 1]) == Chosen(filters[..i], hits[..i]) + (if hits[i] then [filters[i].id] else [])
  {
    assert filters[..i + 1][..i] == filters[..i] && hits[..i + 1][..i] == hits[..i];
  }

  /** The ids reported are those of the filters that hit. */
  lemma {:induction false} ChosenIs(filters: seq<Filter>, hits: seq<bool>, id: int)
    requires |hits| == |filters|
    ensures id in Chosen(filters, hits) <==> exists i :: 0 <= i < |filters| && hits[i] && filters[i].id == id
    decreases |filters|
  {
    if filters != [] {
      var n := |filters| - 1;
      ChosenIs(filters[..n], hits[..n], id);
      if i :| 0 <= i < |filters| && hits[i] && filters[i].id == id {
        assert i < n ==> filters[..n][i] == filters[i] && hits[..n][i] == hits[i];
      }
      if i :| 0 <= i < n && hits[..n][i] && filters[..n][i].id == id {
        assert filters[i].id == id && hits[i];
      }
    }
  }

  /** Ids earlier in the list come first, one per hit. */
  lemma {:induction false} ChosenInOrder(filters: seq<Filter>, hits: seq<bool>, i: nat)
    requires |hits| == |filters| && i < |filters| && hits[i]
    ensures var before := |Chosen(filters[..i], hits[..i])|;
            before < |Chosen(filters, hits)| && Chosen(filters, hits)[before] == filters[i].id
    decreases |filters|
  {
    var n := |filters| - 1;
    if i < n {
      ChosenInOrder(filters[..n], hits[..n], i);
      assert filters[..n][..i] == filters[..i] && hits[..n][..i] == hits[..i];
    }
  }

  // ------------------------------------------------------------------- its uses

  /** An inverted filter with rules matches exactly what the same filter uninverted does not. */
  lemma InverseTurnsAround(x: Item, ctx: Context, f: Compiled)
    requires f.rules != []
    ensures Means(x, ctx, f.(inverse := !f.inverse)) <==> !Means(x, ctx, f)
  {
  }

  /** With matchAnyRule one matching rule is enough; with only "and" rules all must match. */
  lemma AnyAndAll(x: Item, ctx: Context, f: Compiled)
    requires f.rules != [] && !f.inverse
    ensures f.matchAnyRule ==> (Means(x, ctx, f) <==> exists k :: 0 <= k < |f.rules| && RuleMatches(x, ctx, f.rules[k]))
    ensures !f.matchAnyRule && (forall k :: 0 < k < |f.rules| ==> !f.rules[k].orOp) ==>
              (Means(x, ctx, f) <==> forall k :: 0 <= k < |f.rules| ==> RuleMatches(x, ctx, f.rules[k]))
  {
    if f.matchAnyRule {
      if k :| 0 <= k < |f.rules| && RuleMatches(x, ctx, f.rules[k]) {
        assert Lifts(f, k) && Holds(x, ctx, f, |f.rules|);
      }
    } else if forall k :: 0 <= k < |f.rules| ==> RuleMatches(x, ctx, f.rules[k]) {
      assert Lifts(f, 0) && Holds(x, ctx, f, |f.rules|);
    }
  }

  /** What one rule asks. */
  lemma RuleAsks(x: Item, ctx: Context, r: Rule)
    ensures !r.query ==> (RuleMatches(x, ctx, r) <==> if r.negate then x !in r.hits else x in r.hits)
    ensures r.query && ctx.queryHits.Some? ==>
              (RuleMatches(x, ctx, r) <==> if r.negate then r.pattern !in ctx.queryHits.value else r.pattern in ctx.queryHits.value)
    ensures r.query && ctx.queryHits.None? ==> (RuleMatches(x, ctx, r) <==> r.negate)
  {
  }

  /** Three rules combine from the left: (a or b) and c, (a and b) or c. */
  lemma ThreeRules(x: Item, ctx: Context, f: Compiled)
    requires |f.rules| == 3 && !f.matchAnyRule && !f.inverse
    ensures var a, b, c := RuleMatches(x, ctx, f.rules[0]), RuleMatches(x, ctx, f.rules[1]), RuleMatches(x, ctx, f.rules[2]);
            && (f.rules[1].orOp && !f.rules[2].orOp ==> (Means(x, ctx, f) <==> (a || b) && c))
            && (!f.rules[1].orOp && f.rules[2].orOp ==> (Means(x, ctx, f) <==> (a && b) || c))
  {
    FoldedIsHolds(x, ctx, f, 3);
    assert Folded(x, ctx, f, 1) <==> RuleMatches(x, ctx, f.rules[0]);
  }

  /** When a filter cannot be used, and what is compiled otherwise. */
  lemma CompileIs(f: Filter, maxRules: nat)
    ensures var r := Compile(f, maxRules);
            && (r == Err(TooManyRules) <==> 0 < maxRules < |f.rules|)
            && (r == Err(BadRule) <==> !(0 < maxRules < |f.rules|) && exists i :: 0 <= i < |f.rules| && !f.rules[i].compiles)
            && (r.Ok? ==> r.value == Compiled(f.id, f.matchAnyRule, f.inverse, f.scope, f.scopeItems, f.rules, r.value.hasQuery)
                          && (r.value.hasQuery <==> exists i :: 0 <= i < |f.rules| && f.rules[i].query))
            && (r.Err? ==> r.error == TooManyRules || r.error == BadRule)
  {
  }
}
