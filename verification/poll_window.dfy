/**
  Polling hours: a daily window in local time, the next moment it is open,
  and the text it is entered as. Local time is a fixed offset from UTC, so a
  moment is the number of nanoseconds since some local midnight.
 */
module PollWindow {
  import opened Prelude
  import opened Text

  const MINUTE: int := 60_000_000_000
  const DAY: int := 1440 * MINUTE

  /** Minutes since midnight; start after end wraps past midnight. */
  datatype Window = Window(start: int, end: int)

  predicate ValidWindow(w: Window) {
    0 <= w.start < 1440 && 0 <= w.end < 1440 && w.start != w.end
  }

  function MinuteOfDay(t: int): int {
    t % DAY / MINUTE
  }

  predicate Contains(w: Window, t: int) {
    var m := MinuteOfDay(t);
    if w.start < w.end then w.start <= m < w.end else w.start <= m || m < w.end
  }

  /** time.Date of the day of t at the window's start. */
  function OpenOnDay(w: Window, t: int): int {
    t / DAY * DAY + w.start * MINUTE
  }

  function NextOpen(w: Window, t: int): int {
    if Contains(w, t) then t
    else
      var open := OpenOnDay(w, t);
      if open > t then open else open + DAY
  }

  /** A moment by its day and its offset into the day. */
  lemma DayAndOffset(d: int, o: int)
    requires 0 <= o < DAY
    ensures (d * DAY + o) / DAY == d && (d * DAY + o) % DAY == o
  {
  }

  lemma MinuteBounds(o: int, m: int)
    requires 0 <= o < DAY
    ensures o / MINUTE >= m <==> o >= m * MINUTE
  {
  }

  /** Open or not is a matter of the offset into the day. */
  predicate OpenAt(w: Window, o: int) {
    if w.start < w.end then w.start * MINUTE <= o < w.end * MINUTE else w.start * MINUTE <= o || o < w.end * MINUTE
  }

  lemma ContainsByOffset(w: Window, d: int, o: int)
    requires ValidWindow(w) && 0 <= o < DAY
    ensures Contains(w, d * DAY + o) <==> OpenAt(w, o)
  {
    DayAndOffset(d, o);
    MinuteBounds(o, w.start);
    MinuteBounds(o, w.end);
  }

  /** A day later the same offset. */
  lemma ContainsInDay(w: Window, d: int, u: int)
    requires ValidWindow(w) && d * DAY <= u < (d + 1) * DAY
    ensures Contains(w, u) <==> OpenAt(w, u - d * DAY)
  {
    ContainsByOffset(w, d, u - d * DAY);
  }

  lemma ClosedUntilOpen(w: Window, t: int, d: int, u: int)
    requires ValidWindow(w) && d * DAY <= t < (d + 1) * DAY && !OpenAt(w, t - d * DAY)
    requires var open := d * DAY + w.start * MINUTE; t <= u < if open > t then open else open + DAY
    ensures !Contains(w, u)
  {
    if u < (d + 1) * DAY {
      ContainsInDay(w, d, u);
    } else {
      ContainsInDay(w, d + 1, u);
    }
  }

  /** NextOpen is the first moment from t on at which the window is open, less than a day away. */
  lemma NextOpenIsLeast(w: Window, t: int)
    requires ValidWindow(w)
    ensures t <= NextOpen(w, t) < t + DAY && Contains(w, NextOpen(w, t))
    ensures forall u :: t <= u < NextOpen(w, t) ==> !Contains(w, u)
  {
    var d := t / DAY;
    assert d * DAY <= t < (d + 1) * DAY;
    ContainsInDay(w, d, t);
    if !Contains(w, t) {
      ContainsByOffset(w, d, w.start * MINUTE);
      ContainsByOffset(w, d + 1, w.start * MINUTE);
      forall u | t <= u < NextOpen(w, t) ensures !Contains(w, u) {
        ClosedUntilOpen(w, t, d, u);
      }
    }
  }

  /** Asking twice gives the same moment, and a later question never an earlier one. */
  lemma NextOpenIsStable(w: Window, t: int, u: int)
    requires ValidWindow(w) && t <= u
    ensures NextOpen(w, NextOpen(w, t)) == NextOpen(w, t)
    ensures NextOpen(w, t) <= NextOpen(w, u)
  {
    NextOpenIsLeast(w, t);
    NextOpenIsLeast(w, u);
  }

  // -------------------------------------------------------------------- parsing

  function LeadingDigits(s: string): (n: nat)
    ensures n <= |s| && forall i :: 0 <= i < n ==> IsDigit(s[i])
    ensures n < |s| ==> !IsDigit(s[n])
  {
    if s != "" && IsDigit(s[0]) then 1 + LeadingDigits(s[1..]) else 0
  }

  /** %d accepts a sign; a minus cannot occur, it separates the two times. */
  function Unsign(s: string): string {
    if s != "" && s[0] == '+' then s[1..] else s
  }

  /** Sscanf skips spaces before a number and refuses a newline. */
  function SkipSpace(s: string): Option<string> {
    if s == "" || !IsSpace(s[0]) then Some(s)
    else if s[0] == '\n' then None
    else SkipSpace(s[1..])
  }

  /** One "%d". */
  function ScanInt(s: string): Option<(nat, string)> {
    var spaces := SkipSpace(s);
    if spaces.None? then None
    else
      var a := Unsign(spaces.value);
      var n := LeadingDigits(a);
      if n == 0 then None else Some((Value(a[..n]), a[n..]))
  }

  /** parseMinuteOfDay: whatever follows the second number is ignored. */
  function ParseMinuteOfDay(s: string): Option<int> {
    var h := ScanInt(Trim(s));
    if h.None? || h.value.1 == "" || h.value.1[0] != ':' then None
    else
      var m := ScanInt(h.value.1[1..]);
      if m.None? || h.value.0 > 23 || m.value.0 > 59 then None else Some(h.value.0 * 60 + m.value.0)
  }

  function Split(s: string, sep: char): seq<string> {
    if s == "" then [""]
    else
      var rest := Split(s[1..], sep);
      if s[0] == sep then [""] + rest else if rest == [] then [[s[0]]] else [[s[0]] + rest[0]] + rest[1..]
  }

  /** ParsePollHours: no window, a window, or an error. */
  datatype Hours = NoWindow | Open(w: Window) | Invalid

  function ParsePollHours(s0: string): Hours {
    var s := Trim(s0);
    if s == "" then NoWindow
    else
      var parts := Split(s, '-');
      if |parts| != 2 then Invalid
      else
        var start, end := ParseMinuteOfDay(parts[0]), ParseMinuteOfDay(parts[1]);
        if start.None? || end.None? || start.value == end.value then Invalid
        else Open(Window(start.value, end.value))
  }

  /** %02d of a number below 100. */
  function Two(n: nat): string
    requires n < 100
  {
    [Digit(n / 10), Digit(n % 10)]
  }

  function Clock(m: int): (r: string)
    requires 0 <= m < 1440
    ensures |r| == 5 && IsDigit(r[0]) && IsDigit(r[1]) && r[2] == ':' && IsDigit(r[3]) && IsDigit(r[4])
    ensures r == Two(m / 60) + (":" + Two(m % 60)) && Trim(r) == r
  {
    DigitsStay(Two(m / 60) + (":" + Two(m % 60)));
    Two(m / 60) + (":" + Two(m % 60))
  }

  /** NormalizePollHours: "" for no window, None for an error. */
  function NormalizePollHours(s: string): Option<string> {
    match ParsePollHours(s)
    case NoWindow => Some("")
    case Invalid => None
    case Open(w) => WindowIsValid(s); Some(Clock(w.start) + "-" + Clock(w.end))
  }

  lemma WindowIsValid(s: string)
    ensures ParsePollHours(s).Open? ==> ValidWindow(ParsePollHours(s).w)
  {
  }

  // ---------------------------------------------------------------- round trips

  lemma TwoScans(n: nat, rest: string)
    requires n < 100 && (rest == "" || !IsDigit(rest[0]))
    ensures ScanInt(Two(n) + rest) == Some((n, rest))
  {
    var s := Two(n) + rest;
    assert s[0] == Digit(n / 10) && s[1] == Digit(n % 10);
    assert !IsSpace(s[0]) && s[0] != '+';
    assert LeadingDigits(s) == 2;
    assert s[..2] == Two(n) && s[2..] == rest;
    assert Two(n)[..1] == [Digit(n / 10)] && [Digit(n / 10)][..0] == "";
    assert Value([Digit(n / 10)]) == n / 10;
  }

  lemma DigitsStay(s: string)
    requires s != "" && IsDigit(s[0]) && IsDigit(s[|s| - 1])
    ensures Trim(s) == s
  {
  }

  /** Two numbers with a colon between them. */
  lemma TwoNumbersParse(s: string, h: nat, n: nat)
    requires h <= 23 && n <= 59 && Trim(s) == s == Two(h) + (":" + Two(n))
    ensures ParseMinuteOfDay(s) == Some(h * 60 + n)
  {
    TwoScans(h, ":" + Two(n));
    assert (":" + Two(n))[1..] == Two(n) + "";
    TwoScans(n, "");
  }

  lemma ClockParses(m: int)
    requires 0 <= m < 1440
    ensures ParseMinuteOfDay(Clock(m)) == Some(m)
  {
    TwoNumbersParse(Clock(m), m / 60, m % 60);
  }

  lemma {:induction false} SplitPlain(s: string, sep: char)
    requires sep !in s
    ensures Split(s, sep) == [s]
  {
    if s != "" {
      SplitPlain(s[1..], sep);
      assert s == [s[0]] + s[1..];
    }
  }

  lemma {:induction false} SplitAt(a: string, b: string, sep: char)
    requires sep !in a && sep !in b
    ensures Split(a + [sep] + b, sep) == [a, b]
  {
    var s := a + [sep] + b;
    if a == "" {
      assert s[1..] == b;
      SplitPlain(b, sep);
    } else {
      assert s[1..] == a[1..] + [sep] + b;
      SplitAt(a[1..], b, sep);
      assert a == [a[0]] + a[1..];
    }
  }

  lemma TwoTimesParse(s: string, a: string, b: string, w: Window)
    requires ValidWindow(w) && a == Clock(w.start) && b == Clock(w.end)
    requires Trim(s) == s != "" && Split(s, '-') == [a, b]
    ensures ParsePollHours(s) == Open(w)
  {
    ClockParses(w.start);
    ClockParses(w.end);
  }

  /** The canonical text of a window is read back as that window. */
  lemma CanonicalParses(w: Window)
    requires ValidWindow(w)
    ensures ParsePollHours(Clock(w.start) + "-" + Clock(w.end)) == Open(w)
  {
    var a, b := Clock(w.start), Clock(w.end);
    DigitsStay(a + "-" + b);
    SplitAt(a, b, '-');
    TwoTimesParse(a + "-" + b, a, b, w);
  }

  /** Normalizing keeps the meaning of every accepted text, and doing it twice changes nothing. */
  lemma NormalizeRoundTrip(s: string)
    ensures NormalizePollHours(s).None? <==> ParsePollHours(s).Invalid?
    ensures NormalizePollHours(s).Some? ==>
              && ParsePollHours(NormalizePollHours(s).value) == ParsePollHours(s)
              && NormalizePollHours(NormalizePollHours(s).value) == NormalizePollHours(s)
  {
    match ParsePollHours(s)
    case NoWindow =>
    case Invalid =>
    case Open(w) =>
      WindowIsValid(s);
      CanonicalParses(w);
  }
}
