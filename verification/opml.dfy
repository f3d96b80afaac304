/**
  OPML export and import at the level of the outline tree: attributes are
  strings, and writing an attribute trims it. Import of an export gives back
  every feed under its category.
 */
module Opml {
  import opened Prelude
  import opened Text

  // -------------------------------------------------------------- the settings

  datatype Settings = Settings(
    feedType: string, interval: int, tlsInsecure: bool, fetchViaProxy: bool, crawler: bool, storeMode: string,
    adaptive: bool, retentionDays: Option<int>, userAgent: string, webhook: string,
    scraperRules: string, rewriteRules: string, blockedRules: string, keepRules: string)

  /** The rssam:* attributes; an absent one is empty. */
  datatype Attrs = Attrs(
    feedType: string, interval: string, tlsInsecure: string, fetchViaProxy: string, crawler: string, hashOnly: string,
    storeMode: string, adaptive: string, retentionDays: string, userAgent: string, webhook: string,
    scraperRules: string, rewriteRules: string, blockedRules: string, keepRules: string)

  const NO_ATTRS: Attrs := Attrs("", "", "", "", "", "", "", "", "", "", "", "", "", "", "")

  function Lowered(s: string): string {
    ToLower(Trim(s))
  }

  function WriteBool(b: bool): string {
    if b then "true" else ""
  }

  /** writeSettingsAttrs: the loop over attributes, each trimmed as it is written. */
  function WriteSettings(s: Settings): Attrs {
    Attrs(
      if Lowered(s.feedType) != "rss" then Trim(Lowered(s.feedType)) else "",
      if s.interval > 0 then Trim(Itoa(s.interval)) else "",
      WriteBool(s.tlsInsecure), WriteBool(s.fetchViaProxy), WriteBool(s.crawler), "",
      if Lowered(s.storeMode) != "full" then Trim(Lowered(s.storeMode)) else "",
      WriteBool(s.adaptive),
      if s.retentionDays.Some? && s.retentionDays.value > 0 then Trim(Itoa(s.retentionDays.value)) else "",
      Trim(s.userAgent), Trim(s.webhook),
      Trim(s.scraperRules), Trim(s.rewriteRules), Trim(s.blockedRules), Trim(s.keepRules))
  }

  datatype BadAttr = BadInterval | BadRetention | BadBool(name: string) | BadStoreMode

  /** strconv.ParseBool. */
  function ParseBool(s: string): Option<bool> {
    if s == "1" || s == "t" || s == "T" || s == "true" || s == "TRUE" || s == "True" then Some(true)
    else if s == "0" || s == "f" || s == "F" || s == "false" || s == "FALSE" || s == "False" then Some(false)
    else None
  }

  /** boolAttr: the value and its errors. */
  function ReadBool(name: string, raw: string): (bool, seq<BadAttr>) {
    var v := Trim(raw);
    if v == "" then (false, [])
    else if ParseBool(v).None? then (false, [BadBool(name)])
    else (ParseBool(v).value, [])
  }

  function ReadInterval(raw: string): (int, seq<BadAttr>) {
    var v := Trim(raw);
    if v == "" then (0, [])
    else if Atoi(v).None? || Atoi(v).value <= 0 then (0, [BadInterval])
    else (Atoi(v).value, [])
  }

  function ReadRetention(raw: string): (Option<int>, seq<BadAttr>) {
    var v := Trim(raw);
    if v == "" then (None, [])
    else if Atoi(v).None? || Atoi(v).value < 0 then (None, [BadRetention])
    else if Atoi(v).value > 0 then (Some(Atoi(v).value), [])
    else (None, [])
  }

  predicate KnownMode(m: string) {
    m == "full" || m == "filtered" || m == "relay"
  }

  function ReadStoreMode(hashOnly: bool, raw: string): (string, seq<BadAttr>) {
    var v := Trim(raw);
    var fallback := if hashOnly then "filtered" else "";
    if v == "" then (fallback, [])
    else if KnownMode(ToLower(v)) then (ToLower(v), [])
    else (fallback, [BadStoreMode])
  }

  function Values(a: Attrs): Settings {
    Settings(Lowered(a.feedType), ReadInterval(a.interval).0,
             ReadBool("tlsInsecure", a.tlsInsecure).0, ReadBool("fetchViaProxy", a.fetchViaProxy).0, ReadBool("crawler", a.crawler).0,
             ReadStoreMode(ReadBool("hashOnly", a.hashOnly).0, a.storeMode).0,
             ReadBool("adaptiveInterval", a.adaptive).0, ReadRetention(a.retentionDays).0, Trim(a.userAgent), Trim(a.webhook),
             Trim(a.scraperRules), Trim(a.rewriteRules), Trim(a.blockedRules), Trim(a.keepRules))
  }

  function Complaints(a: Attrs): seq<BadAttr> {
    ReadInterval(a.interval).1 + ReadRetention(a.retentionDays).1 +
    ReadBool("tlsInsecure", a.tlsInsecure).1 + ReadBool("fetchViaProxy", a.fetchViaProxy).1 + ReadBool("crawler", a.crawler).1 +
    ReadBool("hashOnly", a.hashOnly).1 + ReadStoreMode(ReadBool("hashOnly", a.hashOnly).0, a.storeMode).1 +
    ReadBool("adaptiveInterval", a.adaptive).1
  }

  /** settingsFromOutline. */
  function ReadSettings(a: Attrs): (Settings, seq<BadAttr>) {
    (Values(a), Complaints(a))
  }

  /** The defaults are not written, and what is written is trimmed. */
  function Normal(s: Settings): Settings {
    Settings(
      if Lowered(s.feedType) == "rss" then "" else Lowered(s.feedType),
      if s.interval > 0 then s.interval else 0,
      s.tlsInsecure, s.fetchViaProxy, s.crawler,
      if KnownMode(Lowered(s.storeMode)) && Lowered(s.storeMode) != "full" then Lowered(s.storeMode) else "",
      s.adaptive,
      if s.retentionDays.Some? && s.retentionDays.value > 0 then s.retentionDays else None,
      Trim(s.userAgent), Trim(s.webhook), Trim(s.scraperRules), Trim(s.rewriteRules), Trim(s.blockedRules), Trim(s.keepRules))
  }

  /** Go ints. */
  predicate Fits(s: Settings) {
    s.interval <= MAX_INT && (s.retentionDays.Some? ==> s.retentionDays.value <= MAX_INT)
  }

  predicate ValidMode(s: Settings) {
    Lowered(s.storeMode) == "" || KnownMode(Lowered(s.storeMode))
  }

  lemma LoweredStays(s: string)
    ensures Trim(Lowered(s)) == Lowered(s) && Lowered(Lowered(s)) == Lowered(s)
  {
    TrimIsTrimmed(s);
    LowerKeepsSpace(Trim(s));
    TrimIsTrimmed(Lowered(s));
  }

  lemma BoolsRoundTrip(name: string, b: bool)
    ensures ReadBool(name, WriteBool(b)) == (b, [])
  {
  }

  lemma NumbersRoundTrip(n: int)
    requires n <= MAX_INT
    ensures ReadInterval(if n > 0 then Trim(Itoa(n)) else "") == (if n > 0 then n else 0, [])
    ensures ReadRetention(if n > 0 then Trim(Itoa(n)) else "") == (if n > 0 then Some(n) else None, [])
  {
    if n > 0 {
      AtoiOfItoa(n);
      ItoaValue(n);
    }
  }

  lemma ModeRoundTrips(s: string)
    ensures var m := Lowered(s);
            ReadStoreMode(false, if m != "full" then Trim(m) else "") ==
            (if KnownMode(m) && m != "full" then m else "", if m == "" || KnownMode(m) then [] else [BadStoreMode])
  {
    LoweredStays(s);
    LowerKeepsSpace(Trim(s));
    TrimIsTrimmed("");
  }

  lemma PartsRoundTrip(s: Settings)
    requires Fits(s)
    ensures var a := WriteSettings(s);
            && ReadInterval(a.interval) == (Normal(s).interval, []) && ReadRetention(a.retentionDays) == (Normal(s).retentionDays, [])
            && ReadBool("tlsInsecure", a.tlsInsecure) == (s.tlsInsecure, []) && ReadBool("fetchViaProxy", a.fetchViaProxy) == (s.fetchViaProxy, [])
            && ReadBool("crawler", a.crawler) == (s.crawler, []) && ReadBool("hashOnly", a.hashOnly) == (false, [])
            && ReadBool("adaptiveInterval", a.adaptive) == (s.adaptive, [])
            && ReadStoreMode(false, a.storeMode) == (Normal(s).storeMode, if ValidMode(s) then [] else [BadStoreMode])
  {
    NumbersRoundTrip(s.interval);
    NumbersRoundTrip(if s.retentionDays.Some? then s.retentionDays.value else 0);
    BoolsRoundTrip("tlsInsecure", s.tlsInsecure);
    BoolsRoundTrip("fetchViaProxy", s.fetchViaProxy);
    BoolsRoundTrip("crawler", s.crawler);
    BoolsRoundTrip("hashOnly", false);
    BoolsRoundTrip("adaptiveInterval", s.adaptive);
    ModeRoundTrips(s.storeMode);
  }

  /** The store mode of any document: a known one in any case, or else what the older hash-only flag says. */
  lemma StoreModeRead(hashOnly: bool, raw: string)
    ensures var (mode, bad) := ReadStoreMode(hashOnly, raw);
            && (Lowered(raw) in {"full", "filtered", "relay"} ==> mode == Lowered(raw) && bad == [])
            && (Lowered(raw) !in {"full", "filtered", "relay"} ==>
                  mode == (if hashOnly then "filtered" else "") && bad == if Blank(raw) then [] else [BadStoreMode])
  {
  }

  lemma FeedTypeRoundTrips(s: Settings)
    ensures Lowered(WriteSettings(s).feedType) == Normal(s).feedType
  {
    LoweredStays(s.feedType);
    TrimIsTrimmed("");
  }

  /** Reading what was written gives the settings in their normal form, and complains exactly about an unknown store mode. */
  lemma SettingsRoundTrip(s: Settings)
    requires Fits(s)
    ensures ReadSettings(WriteSettings(s)) == (Normal(s), if ValidMode(s) then [] else [BadStoreMode])
  {
    PartsRoundTrip(s);
    FeedTypeRoundTrips(s);
    TrimTwice(s);
    NothingElse(if ValidMode(s) then [] else [BadStoreMode]);
  }

  lemma NothingElse(bad: seq<BadAttr>)
    ensures [] + [] + [] + [] + [] + [] + bad + [] == bad
  {
  }

  lemma TrimTwice(s: Settings)
    ensures Trim(Trim(s.userAgent)) == Trim(s.userAgent) && Trim(Trim(s.webhook)) == Trim(s.webhook)
    ensures Trim(Trim(s.scraperRules)) == Trim(s.scraperRules) && Trim(Trim(s.rewriteRules)) == Trim(s.rewriteRules)
    ensures Trim(Trim(s.blockedRules)) == Trim(s.blockedRules) && Trim(Trim(s.keepRules)) == Trim(s.keepRules)
  {
    TrimIsTrimmed(s.userAgent);
    TrimIsTrimmed(s.webhook);
    TrimIsTrimmed(s.scraperRules);
    TrimIsTrimmed(s.rewriteRules);
    TrimIsTrimmed(s.blockedRules);
    TrimIsTrimmed(s.keepRules);
  }
}
