/** The few Python `str` operations the clients use to build requests:
    `rstrip` with an argument, `strip` without one, the single-character
    tests `c in s`, `split` on a one-character separator, `join`, and `str`
    of an integer. Strings are sequences of characters. */
module Strings {

  import opened Common

  /** The characters Python's `str.isspace` accepts, which `str.strip()`
      removes: the ASCII ones, the information separators, NEL, NBSP and
      the Unicode space separators and line/paragraph separators. */
  const Whitespace: set<char> := {
    '\t', '\n', '\U{B}', '\U{C}', '\r', '\U{1C}', '\U{1D}', '\U{1E}',
    '\U{1F}', ' ', '\U{85}', '\U{A0}', '\U{1680}', '\U{2000}', '\U{2001}', '\U{2002}',
    '\U{2003}', '\U{2004}', '\U{2005}', '\U{2006}', '\U{2007}', '\U{2008}', '\U{2009}', '\U{200A}',
    '\U{2028}', '\U{2029}', '\U{202F}', '\U{205F}', '\U{3000}'
  }

  /** `s.rstrip(chars)`: drops every trailing character that is in `chars`. */
  function RStrip(s: string, chars: set<char>): (r: string)
    ensures r <= s
    ensures r == [] || r[|r| - 1] !in chars
    ensures forall i :: |r| <= i < |s| ==> s[i] in chars
  {
    if s != [] && s[|s| - 1] in chars then RStrip(s[..|s| - 1], chars) else s
  }

  /** How many characters at the front of `s` are in `chars`. */
  function LeadingCount(s: string, chars: set<char>): (n: nat)
    ensures n <= |s|
    ensures forall k :: 0 <= k < n ==> s[k] in chars
    ensures n < |s| ==> s[n] !in chars
  {
    if s != [] && s[0] in chars then 1 + LeadingCount(s[1..], chars) else 0
  }

  /** `s.strip(chars)`: cuts characters of `chars` from the front, then
      from the back, until both ends are outside `chars`. */
  function StripChars(s: string, chars: set<char>): (r: string)
    ensures |r| <= |s|
    ensures r == [] || (r[0] !in chars && r[|r| - 1] !in chars)
    decreases |s|
  {
    if s != [] && s[0] in chars then StripChars(s[1..], chars)
    else if s != [] && s[|s| - 1] in chars then StripChars(s[..|s| - 1], chars)
    else s
  }

  /** `r` is the piece of `s` that starts after the leading run of `chars`,
      and everything after that piece is in `chars` too. */
  ghost predicate StripsTo(s: string, chars: set<char>, r: string)
  {
    var i := LeadingCount(s, chars);
    && i + |r| <= |s|
    && r == s[i..i + |r|]
    && (forall k :: i + |r| <= k < |s| ==> s[k] in chars)
  }

  /** What `strip` keeps is the piece of `s` that starts after its leading
      run of `chars`, and everything after that piece is in `chars` too. */
  lemma {:induction false} StripCharsSlice(s: string, chars: set<char>)
    ensures var r, i := StripChars(s, chars), LeadingCount(s, chars);
      && i + |r| <= |s|
      && r == s[i..i + |r|]
      && (forall k :: i + |r| <= k < |s| ==> s[k] in chars)
    decreases |s|, 1
  {
    if s != [] && s[0] in chars {
      CutFront(s, chars);
    } else if s != [] && s[|s| - 1] in chars {
      CutBack(s, chars);
    }
  }

  /** The step of `StripCharsSlice` that cuts the first character. */
  lemma {:induction false} CutFront(s: string, chars: set<char>)
    requires s != [] && s[0] in chars
    ensures StripsTo(s, chars, StripChars(s, chars))
    decreases |s|, 0
  {
    var t := s[1..];
    var r, i := StripChars(t, chars), LeadingCount(t, chars);
    StripCharsSlice(t, chars);
    assert r == StripChars(s, chars) && LeadingCount(s, chars) == i + 1;
    ShiftTail(s, i, |r|, chars);
  }

  /** A fact about a piece of `s[1..]` is a fact about the same piece of `s`,
      one position further on. */
  lemma ShiftTail(s: string, i: nat, n: nat, chars: set<char>)
    requires s != [] && i + n <= |s| - 1
    requires forall k :: i + n <= k < |s| - 1 ==> s[1..][k] in chars
    ensures s[1..][i..i + n] == s[i + 1..i + 1 + n]
    ensures forall k :: i + 1 + n <= k < |s| ==> s[k] in chars
  {
    forall k | i + 1 + n <= k < |s| ensures s[k] in chars {
      assert s[k] == s[1..][k - 1];
    }
  }

  /** The step of `StripCharsSlice` that cuts the last character once the
      first one is kept. */
  lemma {:induction false} CutBack(s: string, chars: set<char>)
    requires s != [] && s[0] !in chars && s[|s| - 1] in chars
    ensures StripsTo(s, chars, StripChars(s, chars))
    decreases |s|, 0
  {
    var t := s[..|s| - 1];
    var r := StripChars(t, chars);
    StripCharsSlice(t, chars);
    assert r == StripChars(s, chars) && LeadingCount(s, chars) == 0;
    assert LeadingCount(t, chars) == 0 by {
      assert t == [] || t[0] == s[0];
    }
    assert r == s[0..|r|];
    forall k | |r| <= k < |s| ensures s[k] in chars {
      if k < |s| - 1 {
        assert s[k] == t[k];
      }
    }
  }

  /** `s.strip()`: cuts Python whitespace from both ends. */
  function Strip(s: string): (r: string)
    ensures |r| <= |s|
    ensures r == [] || (r[0] !in Whitespace && r[|r| - 1] !in Whitespace)
    ensures LeadingCount(s, Whitespace) + |r| <= |s|
    ensures r == s[LeadingCount(s, Whitespace)..LeadingCount(s, Whitespace) + |r|]
    ensures forall k :: LeadingCount(s, Whitespace) + |r| <= k < |s| ==> s[k] in Whitespace
  {
    StripCharsSlice(s, Whitespace);
    StripChars(s, Whitespace)
  }

  /** A string that starts and ends with something other than whitespace
      (or is empty) is its own `strip()`. */
  lemma {:induction false} StripTrimmed(s: string)
    requires s == [] || (s[0] !in Whitespace && s[|s| - 1] !in Whitespace)
    ensures Strip(s) == s
  {
  }

  /** The position of the first occurrence of `c` in `s`, if any. */
  function IndexOf(s: string, c: char): (r: Option<nat>)
    ensures r.None? <==> c !in s
    ensures r.Some? ==> r.value < |s| && s[r.value] == c && c !in s[..r.value]
  {
    if s == [] then None
    else if s[0] == c then Some(0)
    else match IndexOf(s[1..], c)
      case None => None
      case Some(i) =>
        assert s[..i + 1] == [s[0]] + s[1..][..i];
        Some(i + 1)
  }

  /** `s.split(sep, 1)` for a one-character separator: the text before the
      first `sep` and everything after it, or `[s]` when there is no `sep`. */
  function SplitOnce(s: string, sep: char): (parts: seq<string>)
    ensures sep in s ==> |parts| == 2 && s == parts[0] + [sep] + parts[1] && sep !in parts[0]
    ensures sep !in s ==> parts == [s]
  {
    match IndexOf(s, sep)
    case None => [s]
    case Some(i) =>
      assert s == s[..i] + [sep] + s[i + 1..];
      [s[..i], s[i + 1..]]
  }

  /** The first occurrence is found wherever it is. */
  lemma {:induction false} IndexOfFirst(s: string, c: char, j: nat)
    requires j < |s| && s[j] == c && c !in s[..j]
    ensures IndexOf(s, c) == Some(j)
  {
    if j > 0 {
      assert s[0] == s[..j][0];
      assert s[1..][..j - 1] == s[..j][1..];
      IndexOfFirst(s[1..], c, j - 1);
    }
  }

  /** Splitting at the first `sep` finds the boundary of a key free of `sep`,
      whatever follows it. */
  lemma {:induction false} SplitOnceAt(key: string, sep: char, rest: string)
    requires sep !in key
    ensures SplitOnce(key + [sep] + rest, sep) == [key, rest]
  {
    var s := key + [sep] + rest;
    assert s[..|key|] == key;
    IndexOfFirst(s, sep, |key|);
    assert s[|key| + 1..] == rest;
  }

  /** `s.split(sep)` for a one-character separator. */
  function Split(s: string, sep: char): (parts: seq<string>)
    ensures |parts| >= 1
    ensures forall k :: 0 <= k < |parts| ==> sep !in parts[k]
    decreases |s|
  {
    match IndexOf(s, sep)
    case None => [s]
    case Some(i) => [s[..i]] + Split(s[i + 1..], sep)
  }

  /** `sep.join(parts)`. */
  function Join(sep: string, parts: seq<string>): (r: string)
    ensures parts == [] ==> r == []
    ensures |parts| == 1 ==> r == parts[0]
  {
    if parts == [] then []
    else if |parts| == 1 then parts[0]
    else parts[0] + sep + Join(sep, parts[1..])
  }

  /** Splitting a join on its one-character separator gives the parts back,
      as long as no part contains the separator. */
  lemma {:induction false} SplitJoin(parts: seq<string>, sep: char)
    requires parts != []
    requires forall k :: 0 <= k < |parts| ==> sep !in parts[k]
    ensures Split(Join([sep], parts), sep) == parts
  {
    if |parts| == 1 {
      assert Split(parts[0], sep) == [parts[0]];
    } else {
      var tail := Join([sep], parts[1..]);
      SplitJoin(parts[1..], sep);
      SplitOnceAt(parts[0], sep, tail);
      var s := parts[0] + [sep] + tail;
      assert Join([sep], parts) == s;
      var i := IndexOf(s, sep).value;
      assert i == |parts[0]| by {
        assert SplitOnce(s, sep) == [s[..i], s[i + 1..]];
      }
      assert s[..i] == parts[0] && s[i + 1..] == tail;
      assert parts == [parts[0]] + parts[1..];
    }
  }

  /** Joining the parts of a split with the separator rebuilds the
      string: `Split` loses nothing. */
  lemma {:induction false} JoinSplit(s: string, sep: char)
    ensures Join([sep], Split(s, sep)) == s
    decreases |s|
  {
    match IndexOf(s, sep)
    case None =>
    case Some(i) =>
      var rest := Split(s[i + 1..], sep);
      JoinSplit(s[i + 1..], sep);
      var parts := [s[..i]] + rest;
      assert parts[1..] == rest && |parts| > 1;
      assert Join([sep], parts) == s[..i] + [sep] + s[i + 1..];
      assert s == s[..i] + [s[i]] + s[i + 1..];
  }

  /** The character of a decimal digit. */
  function Digit(d: nat): (c: char)
    requires d < 10
    ensures '0' <= c <= '9'
    ensures DigitValue(c) == d
  {
    (48 + d) as char
  }

  /** The value of a decimal digit character; 0 for anything else. */
  function DigitValue(c: char): nat
  {
    if '0' <= c <= '9' then (c as int) - 48 else 0
  }

  /** The number a string of decimal digits denotes, read left to right:
      each digit multiplies what precedes it by ten. */
  function DigitsValue(s: string): nat
  {
    if s == [] then 0 else 10 * DigitsValue(s[..|s| - 1]) + DigitValue(s[|s| - 1])
  }

  /** `str(n)` for a natural number: its decimal digits, no leading zero,
      which denote `n`. */
  function NatToString(n: nat): (r: string)
    ensures |r| >= 1
    ensures forall k :: 0 <= k < |r| ==> '0' <= r[k] <= '9'
    ensures |r| > 1 ==> r[0] != '0'
    ensures DigitsValue(r) == n
  {
    if n < 10 then
      assert [Digit(n)][..0] == [];
      [Digit(n)]
    else
      var p := NatToString(n / 10);
      var r := p + [Digit(n % 10)];
      assert r[..|r| - 1] == p;
      r
  }

  /** `str(i)` for an integer: a '-' and the digits of `-i` when `i` is
      negative. The result never contains a separator used in URLs. */
  function IntToString(i: int): (r: string)
    ensures r != []
    ensures '&' !in r && '=' !in r && '?' !in r && '/' !in r
    ensures i >= 0 ==> (forall k :: 0 <= k < |r| ==> '0' <= r[k] <= '9') && DigitsValue(r) == i
    ensures i >= 0 ==> (|r| > 1 ==> r[0] != '0')
    ensures i < 0 ==> r[0] == '-' && DigitsValue(r[1..]) == -i
    ensures i < 0 ==> |r| >= 2 && (forall k :: 1 <= k < |r| ==> '0' <= r[k] <= '9') && (|r| > 2 ==> r[1] != '0')
  {
    if i < 0 then
      var d := NatToString(-i);
      Signed(d);
      "-" + d
    else NatToString(i)
  }

  /** A '-' in front of a string of digits leaves the digits after it. */
  lemma Signed(d: string)
    ensures ("-" + d)[0] == '-' && ("-" + d)[1..] == d
    ensures forall k :: 1 <= k < |"-" + d| ==> ("-" + d)[k] == d[k - 1]
  {
  }
}
