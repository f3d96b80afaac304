/** The few string operations of the Go standard library the model relies on. */
module Text {
  import opened Prelude

  /** The ranges of White_Space beyond ASCII. */
  const WIDE_SPACES: seq<(int, int)> := [
    (0x85, 0x85), (0xA0, 0xA0), (0x1680, 0x1680), (0x2000, 0x200A), (0x2028, 0x2029), (0x202F, 0x202F), (0x205F, 0x205F), (0x3000, 0x3000)]

  predicate InRanges(c: int, ranges: seq<(int, int)>) {
    ranges != [] && (ranges[0].0 <= c <= ranges[0].1 || InRanges(c, ranges[1..]))
  }

  /** The characters strings.TrimSpace removes. */
  predicate IsSpace(c: char) {
    if c < 0x80 as char then 9 as char <= c <= 13 as char || c == ' ' else InRanges(c as int, WIDE_SPACES)
  }

  /** The index of the first character from i on that is no space. */
  function SkipSpaces(s: string, i: nat): nat
    requires i <= |s|
    ensures i <= SkipSpaces(s, i) <= |s|
    decreases |s| - i
  {
    if i < |s| && IsSpace(s[i]) then SkipSpaces(s, i + 1) else i
  }

  /** The index after the last character before j that is no space. */
  function DropSpaces(s: string, j: nat): nat
    requires j <= |s|
    ensures DropSpaces(s, j) <= j
    decreases j
  {
    if j > 0 && IsSpace(s[j - 1]) then DropSpaces(s, j - 1) else j
  }

  /** strings.TrimSpace. */
  function Trim(s: string): string {
    var i, j := SkipSpaces(s, 0), DropSpaces(s, |s|);
    if i < j then s[i..j] else ""
  }

  /** What TrimSpace calls empty. */
  predicate Blank(s: string) {
    Trim(s) == ""
  }

  predicate Trimmed(s: string) {
    s == "" || (!IsSpace(s[0]) && !IsSpace(s[|s| - 1]))
  }

  lemma {:induction false} SkipStops(s: string, i: nat)
    requires i <= |s|
    ensures SkipSpaces(s, i) < |s| ==> !IsSpace(s[SkipSpaces(s, i)])
    decreases |s| - i
  {
    if i < |s| && IsSpace(s[i]) {
      SkipStops(s, i + 1);
    }
  }

  lemma {:induction false} DropStops(s: string, j: nat)
    requires j <= |s|
    ensures DropSpaces(s, j) > 0 ==> !IsSpace(s[DropSpaces(s, j) - 1])
    decreases j
  {
    if j > 0 && IsSpace(s[j - 1]) {
      DropStops(s, j - 1);
    }
  }

  /** Trimmed strings stay as they are. */
  lemma TrimmedStays(s: string)
    requires Trimmed(s)
    ensures Trim(s) == s
  {
  }

  /** Trim leaves a trimmed string, and trimmed strings are its fixed points. */
  lemma TrimIsTrimmed(s: string)
    ensures Trimmed(Trim(s))
    ensures Trimmed(s) ==> Trim(s) == s
    ensures Trim(Trim(s)) == Trim(s)
  {
    SkipStops(s, 0);
    DropStops(s, |s|);
    if Trimmed(s) {
      TrimmedStays(s);
    }
    TrimmedStays(Trim(s));
  }

  lemma {:induction false} SkipsOnlySpaces(s: string, i: nat)
    requires i <= |s|
    ensures forall k :: i <= k < SkipSpaces(s, i) ==> IsSpace(s[k])
    decreases |s| - i
  {
    if i < |s| && IsSpace(s[i]) {
      SkipsOnlySpaces(s, i + 1);
    }
  }

  lemma {:induction false} DropsOnlySpaces(s: string, j: nat)
    requires j <= |s|
    ensures forall k :: DropSpaces(s, j) <= k < j ==> IsSpace(s[k])
    decreases j
  {
    if j > 0 && IsSpace(s[j - 1]) {
      DropsOnlySpaces(s, j - 1);
    }
  }

  /** Trim cuts spaces and nothing else, and leaves nothing exactly of a string of spaces. */
  lemma TrimCutsSpaces(s: string)
    ensures Blank(s) <==> forall k :: 0 <= k < |s| ==> IsSpace(s[k])
    ensures !Blank(s) ==>
              exists i, j :: 0 <= i < j <= |s| && Trim(s) == s[i..j] && !IsSpace(s[i]) && !IsSpace(s[j - 1])
                             && (forall k :: 0 <= k < i ==> IsSpace(s[k])) && forall k :: j <= k < |s| ==> IsSpace(s[k])
  {
    SkipStops(s, 0);
    DropStops(s, |s|);
    SkipsOnlySpaces(s, 0);
    DropsOnlySpaces(s, |s|);
    var i, j := SkipSpaces(s, 0), DropSpaces(s, |s|);
    if i < j {
      assert Trim(s) == s[i..j];
    }
  }

  function LowerChar(c: char): char {
    if 'A' <= c <= 'Z' then c - 'A' + 'a' else c
  }

  /** strings.ToLower on ASCII letters; other letters keep their case here. */
  function ToLower(s: string): (r: string)
    ensures |r| == |s| && forall i :: 0 <= i < |s| ==> r[i] == LowerChar(s[i])
  {
    seq(|s|, i requires 0 <= i < |s| => LowerChar(s[i]))
  }

  lemma LowerKeepsSpace(s: string)
    ensures Trimmed(s) ==> Trimmed(ToLower(s))
    ensures ToLower(ToLower(s)) == ToLower(s)
  {
  }

  // -------------------------------------------------------------- numbers

  predicate IsDigit(c: char) {
    '0' <= c <= '9'
  }

  function Digit(n: nat): char
    requires n < 10
  {
    '0' + n as char
  }

  predicate AllDigits(s: string) {
    forall i :: 0 <= i < |s| ==> IsDigit(s[i])
  }

  function Value(s: string): nat
    requires AllDigits(s)
  {
    if s == "" then 0
    else
      assert IsDigit(s[|s| - 1]);
      10 * Value(s[..|s| - 1]) + (s[|s| - 1] as int - '0' as int)
  }

  /** strconv.Itoa of a number that is not negative. */
  function Itoa(n: nat): string {
    if n < 10 then [Digit(n)] else Itoa(n / 10) + [Digit(n % 10)]
  }

  const MAX_INT: int := 0x7FFF_FFFF_FFFF_FFFF

  /** strconv.Atoi. */
  function Atoi(s: string): Option<int> {
    var negative := s != "" && s[0] == '-';
    var digits := if s != "" && (s[0] == '-' || s[0] == '+') then s[1..] else s;
    if digits == "" || !AllDigits(digits) then None
    else
      var v: int := Value(digits);
      if negative then (if v > MAX_INT + 1 then None else Some(-v))
      else if v > MAX_INT then None
      else Some(v)
  }

  lemma {:induction false} ItoaValue(n: nat)
    ensures Itoa(n) != "" && AllDigits(Itoa(n)) && Value(Itoa(n)) == n
  {
    if n < 10 {
      assert [Digit(n)][..0] == "";
    } else {
      ItoaValue(n / 10);
      assert Itoa(n)[..|Itoa(n)| - 1] == Itoa(n / 10);
    }
  }

  lemma AtoiOfItoa(n: nat)
    requires n <= MAX_INT
    ensures Atoi(Itoa(n)) == Some(n) && Trim(Itoa(n)) == Itoa(n)
  {
    ItoaValue(n);
    assert IsDigit(Itoa(n)[0]) && IsDigit(Itoa(n)[|Itoa(n)| - 1]);
    TrimIsTrimmed(Itoa(n));
  }
}
