/** The Java and Spring string primitives the services rely on: null and
    blank tests, decimal rendering and parsing of integers, splitting and
    joining on a separator, and the `\d+` digit runs a regex matcher finds. */
module Text {
  import opened Wrappers
  import opened JavaInts

  // ---------------------------------------------------------------------
  // Blank tests
  // ---------------------------------------------------------------------

  /** Java's `Character.isWhitespace` (the separators of Unicode's space
      categories except the no-break spaces, and the ASCII controls
      TAB, LF, VT, FF, CR, FS, GS, RS, US). */
  predicate IsJavaWhitespace(c: char) {
    c == ' ' || c == '\t' || c == '\n' || c == '\U{000B}' || c == '\U{000C}' || c == '\r'
    || ('\U{001C}' <= c <= '\U{001F}')
    || c == '\U{1680}' || ('\U{2000}' <= c <= '\U{2006}') || ('\U{2008}' <= c <= '\U{200A}')
    || c == '\U{2028}' || c == '\U{2029}' || c == '\U{205F}' || c == '\U{3000}'
  }

  /** Java's `String.isBlank()`: empty or whitespace only. */
  predicate IsBlank(s: string) {
    forall i :: 0 <= i < |s| ==> IsJavaWhitespace(s[i])
  }

  /** Spring's `StringUtils.hasLength`: non-null and non-empty. */
  predicate HasLength(s: Option<string>) {
    s.Some? && |s.value| > 0
  }

  /** Spring's `StringUtils.hasText`: non-null with a non-whitespace character. */
  predicate HasText(s: Option<string>) {
    s.Some? && !IsBlank(s.value)
  }

  /** `s.trim().isEmpty()`: `trim` removes every character up to U+0020. */
  predicate TrimsToEmpty(s: string) {
    forall i :: 0 <= i < |s| ==> s[i] <= ' '
  }

  lemma HasTextImpliesHasLength(s: Option<string>)
    ensures HasText(s) ==> HasLength(s)
    ensures HasLength(s) && !HasText(s) ==> IsBlank(s.value) && |s.value| > 0
  {
    if HasText(s) && |s.value| == 0 {
      assert IsBlank(s.value);
    }
  }

  // ---------------------------------------------------------------------
  // Decimal rendering and parsing of integers
  // ---------------------------------------------------------------------

  predicate IsDigit(c: char) {
    '0' <= c <= '9'
  }

  predicate AllDigits(s: string) {
    forall i :: 0 <= i < |s| ==> IsDigit(s[i])
  }

  function DigitChar(d: nat): (c: char)
    requires d < 10
    ensures IsDigit(c) && (c as int) - ('0' as int) == d
  {
    (('0' as int) + d) as char
  }

  /** `Long.toString` / `Integer.toString` of a non-negative number. */
  function NatToString(n: nat): (s: string)
    ensures |s| >= 1 && AllDigits(s)
    ensures |s| > 1 ==> s[0] != '0'
    decreases n
  {
    if n < 10 then [DigitChar(n)] else NatToString(n / 10) + [DigitChar(n % 10)]
  }

  /** `String.valueOf(long)`: a minus sign and the digits of the magnitude. */
  function IntToString(i: int): (s: string)
    ensures |s| >= 1
    ensures i >= 0 ==> AllDigits(s)
    ensures i < 0 ==> s[0] == '-' && AllDigits(s[1..])
  {
    if i < 0 then "-" + NatToString(-i) else NatToString(i)
  }

  /** `String.valueOf(long)` writes only digits and a leading minus sign. */
  lemma IntToStringChars(i: int)
    ensures forall k :: 0 <= k < |IntToString(i)| ==> IsDigit(IntToString(i)[k]) || IntToString(i)[k] == '-'
    ensures forall k :: 1 <= k < |IntToString(i)| ==> IsDigit(IntToString(i)[k])
  {
    var s := IntToString(i);
    if i < 0 {
      forall k | 1 <= k < |s|
        ensures IsDigit(s[k])
      {
        assert s[k] == s[1..][k - 1];
      }
    }
  }

  /** The number a string of decimal digits denotes. */
  function DigitsValue(s: string): (n: nat)
    requires AllDigits(s)
    decreases |s|
  {
    if s == [] then 0
    else DigitsValue(s[..|s| - 1]) * 10 + ((s[|s| - 1] as int) - ('0' as int))
  }

  lemma {:induction false} DigitsValueOfNatToString(n: nat)
    ensures DigitsValue(NatToString(n)) == n
    decreases n
  {
    if n >= 10 {
      var s := NatToString(n);
      assert s[..|s| - 1] == NatToString(n / 10);
      DigitsValueOfNatToString(n / 10);
    }
  }

  const LONG_MIN: int := -0x8000_0000_0000_0000
  const LONG_MAX: int := 0x7FFF_FFFF_FFFF_FFFF

  /** A boxed Java `Long` value. */
  predicate IsLong(x: int) {
    LONG_MIN <= x <= LONG_MAX
  }

  /** `Long.parseLong` / `Integer.parseInt` on the range [lo, hi]: an
      optional sign and at least one digit; anything else, or a value out
      of range, throws NumberFormatException (`None`). */
  function ParseInteger(s: string, lo: int, hi: int): (r: Option<int>)
    ensures r.Some? ==> lo <= r.value <= hi
  {
    if |s| == 0 then None
    else if s[0] == '-' || s[0] == '+' then
      if |s| == 1 || !AllDigits(s[1..]) then None
      else
        var v: int := if s[0] == '-' then -(DigitsValue(s[1..]) as int) else DigitsValue(s[1..]);
        if lo <= v <= hi then Some(v) else None
    else if !AllDigits(s) then None
    else if lo <= DigitsValue(s) <= hi then Some(DigitsValue(s)) else None
  }

  function ParseLong(s: string): (r: Option<int>)
    ensures r.Some? ==> IsLong(r.value)
  {
    ParseInteger(s, LONG_MIN, LONG_MAX)
  }

  function ParseInt(s: string): (r: Option<int>)
    ensures r.Some? ==> INT_MIN <= r.value <= INT_MAX
  {
    ParseInteger(s, INT_MIN, INT_MAX)
  }

  /** Parsing reads back what `String.valueOf` wrote. */
  lemma ParseOfIntToString(x: int, lo: int, hi: int)
    requires lo <= x <= hi
    ensures ParseInteger(IntToString(x), lo, hi) == Some(x)
  {
    var s := IntToString(x);
    if x < 0 {
      assert s[1..] == NatToString(-x);
      DigitsValueOfNatToString(-x);
    } else {
      DigitsValueOfNatToString(x);
    }
  }

  // ---------------------------------------------------------------------
  // Joining and splitting on a one-character separator
  // ---------------------------------------------------------------------

  /** `Collectors.joining(sep)` / `String.join(sep, xs)`. */
  function Join(xs: seq<string>, sep: string): (s: string)
    decreases |xs|
  {
    if |xs| == 0 then "" else if |xs| == 1 then xs[0] else xs[0] + sep + Join(xs[1..], sep)
  }

  /** Index of the first `c` in `s`, or `|s|` when there is none. */
  function IndexOf(s: string, c: char): (i: nat)
    ensures i <= |s|
    ensures i < |s| ==> s[i] == c
    ensures forall k :: 0 <= k < i ==> s[k] != c
    decreases |s|
  {
    if |s| == 0 then 0 else if s[0] == c then 0 else 1 + IndexOf(s[1..], c)
  }

  /** Every piece between separators, empty ones included (Kotlin's
      `CharSequence.split`): `"a||b"` gives `["a", "", "b"]`, `""` gives `[""]`. */
  function SplitKeepingEmpty(s: string, c: char): (r: seq<string>)
    ensures |r| >= 1
    ensures forall k :: 0 <= k < |r| ==> c !in r[k]
    decreases |s|
  {
    var i := IndexOf(s, c);
    assert c !in s[..i];
    if i == |s| then [s] else [s[..i]] + SplitKeepingEmpty(s[i + 1..], c)
  }

  function DropTrailingEmpty(xs: seq<string>): (r: seq<string>)
    ensures |r| <= |xs| && r == xs[..|r|]
    ensures |r| > 0 ==> r[|r| - 1] != ""
    ensures forall k :: |r| <= k < |xs| ==> xs[k] == ""
    decreases |xs|
  {
    if |xs| > 0 && xs[|xs| - 1] == "" then DropTrailingEmpty(xs[..|xs| - 1]) else xs
  }

  /** Java's `String.split` with a one-character pattern: a string without
      the separator gives itself, otherwise the pieces with the trailing
      empty ones removed (`"a,"` gives `["a"]`, `","` gives `[]`). */
  function JavaSplit(s: string, c: char): (r: seq<string>)
    ensures forall k :: 0 <= k < |r| ==> c !in r[k]
  {
    if c !in s then [s] else DropTrailingEmpty(SplitKeepingEmpty(s, c))
  }

  lemma IndexOfJoined(a: string, c: char, b: string)
    requires c !in a
    ensures IndexOf(a + [c] + b, c) == |a|
  {
    var s := a + [c] + b;
    assert s[|a|] == c;
    assert forall k :: 0 <= k < |a| ==> s[k] == a[k];
  }

  /** Splitting undoes joining when no piece contains the separator. */
  lemma {:induction false} SplitJoin(xs: seq<string>, c: char)
    requires |xs| >= 1
    requires forall k :: 0 <= k < |xs| ==> c !in xs[k]
    ensures SplitKeepingEmpty(Join(xs, [c]), c) == xs
    decreases |xs|
  {
    if |xs| == 1 {
      assert IndexOf(xs[0], c) == |xs[0]|;
    } else {
      var rest := Join(xs[1..], [c]);
      assert Join(xs, [c]) == xs[0] + [c] + rest;
      SplitFirstPiece(xs[0], c, rest);
      SplitJoin(xs[1..], c);
      assert xs == [xs[0]] + xs[1..];
    }
  }

  /** A first piece without the separator comes off whole. */
  lemma SplitFirstPiece(a: string, c: char, rest: string)
    requires c !in a
    ensures SplitKeepingEmpty(a + [c] + rest, c) == [a] + SplitKeepingEmpty(rest, c)
  {
    var s := a + [c] + rest;
    IndexOfJoined(a, c, rest);
    assert s[..|a|] == a;
    assert s[|a| + 1..] == rest;
  }

  /** Joining the pieces with the separator gives back the string. */
  lemma {:induction false} JoinSplit(s: string, c: char)
    ensures Join(SplitKeepingEmpty(s, c), [c]) == s
    decreases |s|
  {
    var i := IndexOf(s, c);
    if i < |s| {
      var rest := SplitKeepingEmpty(s[i + 1..], c);
      JoinSplit(s[i + 1..], c);
      var xs := [s[..i]] + rest;
      assert SplitKeepingEmpty(s, c) == xs;
      assert xs[1..] == rest;
      assert Join(xs, [c]) == s[..i] + [c] + s[i + 1..];
      assert s == s[..i] + [c] + s[i + 1..];
    }
  }

  /** Java's split undoes joining when, in addition, no piece is empty. */
  lemma JavaSplitJoin(xs: seq<string>, c: char)
    requires |xs| >= 1
    requires forall k :: 0 <= k < |xs| ==> c !in xs[k] && xs[k] != ""
    ensures JavaSplit(Join(xs, [c]), c) == xs
  {
    SplitJoin(xs, c);
    if |xs| > 1 {
      var s := Join(xs, [c]);
      assert s == xs[0] + [c] + Join(xs[1..], [c]);
      assert s[|xs[0]|] == c;
      assert c in s;
    }
  }

  // ---------------------------------------------------------------------
  // Digit runs: what `Pattern.compile("\\d+")` finds, match after match
  // ---------------------------------------------------------------------

  /** Length of the run of ASCII digits at the start of `s`. */
  function DigitPrefixLength(s: string): (n: nat)
    ensures n <= |s|
    ensures AllDigits(s[..n])
    ensures n < |s| ==> !IsDigit(s[n])
    decreases |s|
  {
    if |s| == 0 || !IsDigit(s[0]) then 0
    else
      var n := 1 + DigitPrefixLength(s[1..]);
      assert s[..n] == [s[0]] + s[1..][..n - 1];
      n
  }

  /** The maximal runs of ASCII digits of `s`, left to right (Java's `\d`
      is ASCII-only unless UNICODE_CHARACTER_CLASS is set). */
  function DigitRuns(s: string): (r: seq<string>)
    ensures forall k :: 0 <= k < |r| ==> |r[k]| >= 1 && AllDigits(r[k])
    decreases |s|
  {
    if s == [] then []
    else if !IsDigit(s[0]) then DigitRuns(s[1..])
    else
      var n := DigitPrefixLength(s);
      [s[..n]] + DigitRuns(s[n..])
  }

  lemma {:induction false} DigitRunsAppend(a: string, b: string)
    requires |a| > 0 ==> !IsDigit(a[|a| - 1])
    ensures DigitRuns(a + b) == DigitRuns(a) + DigitRuns(b)
    decreases |a|
  {
    if a == [] {
      assert a + b == b;
    } else if !IsDigit(a[0]) {
      assert (a + b)[1..] == a[1..] + b;
      DigitRunsAppend(a[1..], b);
    } else {
      var n := DigitPrefixLength(a);
      assert n < |a|;
      DigitPrefixOfAppend(a, b, n);
      assert (a + b)[..n] == a[..n];
      assert (a + b)[n..] == a[n..] + b;
      DigitRunsAppend(a[n..], b);
    }
  }

  lemma DigitPrefixOfAppend(a: string, b: string, n: nat)
    requires n < |a| && n == DigitPrefixLength(a)
    ensures DigitPrefixLength(a + b) == n
  {
    var m := DigitPrefixLength(a + b);
    assert (a + b)[..n] == a[..n];
    assert forall k :: 0 <= k < |a| ==> (a + b)[k] == a[k];
  }

  lemma DigitRunsOfDigits(d: string)
    requires |d| >= 1 && AllDigits(d)
    ensures DigitRuns(d) == [d]
  {
    assert DigitPrefixLength(d) == |d|;
    assert d[..|d|] == d;
    assert d[|d|..] == [];
  }

  /** SQL `LIKE '%f%'`: the text contains `f`. */
  predicate Contains(s: string, f: string) {
    exists i :: 0 <= i <= |s| && f <= s[i..]
  }

  /** `String.valueOf` of a reference that may be null, as string
      concatenation renders it. */
  function StringValueOf(s: Option<string>): string {
    if s.Some? then s.value else "null"
  }
}
