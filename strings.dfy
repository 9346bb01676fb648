/**
 * The few Python string operations the parser and the READ instruction rely on:
 * str.isspace, str.strip, str.split(maxsplit=1), str.upper, str.index and int().
 * Characters are Unicode code points; case mapping and digits are ASCII only.
 */
module Strings {
  import opened Results

  /** Python's str.isspace() for a single character (the complete list of
      code points Python 3 treats as whitespace). */
  predicate IsSpace(c: char) {
    || ('\t' <= c <= '\r')
    || ('\U{001C}' <= c <= ' ')
    || c == '\U{0085}' || c == '\U{00A0}' || c == '\U{1680}'
    || ('\U{2000}' <= c <= '\U{200A}')
    || c == '\U{2028}' || c == '\U{2029}' || c == '\U{202F}' || c == '\U{205F}'
    || c == '\U{3000}'
  }

  predicate AllSpace(s: string) {
    forall k :: 0 <= k < |s| ==> IsSpace(s[k])
  }

  predicate NoSpace(s: string) {
    forall k :: 0 <= k < |s| ==> !IsSpace(s[k])
  }

  /** str.lstrip(): drops the leading whitespace. */
  function LStrip(s: string): (r: string)
    ensures |r| <= |s|
    ensures r != [] ==> !IsSpace(r[0])
    ensures s != [] && !IsSpace(s[0]) ==> r == s
  {
    if s != [] && IsSpace(s[0]) then LStrip(s[1..]) else s
  }

  /** str.rstrip(): drops the trailing whitespace. */
  function RStrip(s: string): (r: string)
    ensures |r| <= |s|
    ensures r != [] ==> !IsSpace(r[|r| - 1])
    ensures s != [] && !IsSpace(s[0]) ==> r != []
  {
    if s != [] && IsSpace(s[|s| - 1]) then RStrip(s[..|s| - 1]) else s
  }

  /** str.strip(): s without its leading and trailing whitespace. */
  function Strip(s: string): (r: string)
    ensures |r| <= |s|
    ensures r != [] ==> !IsSpace(r[0]) && !IsSpace(r[|r| - 1])
    ensures s != [] && !IsSpace(s[0]) ==> r != []
  {
    var l := LStrip(s);
    var r := RStrip(l);
    RStripPrefix(l);
    assert r != [] ==> r[0] == l[0];
    r
  }

  /** lstrip keeps a suffix of s. */
  lemma {:induction false} LStripSuffix(s: string)
    ensures LStrip(s) == s[|s| - |LStrip(s)|..]
  {
    if s != [] && IsSpace(s[0]) {
      LStripSuffix(s[1..]);
    }
  }

  /** rstrip keeps a prefix of s. */
  lemma {:induction false} RStripPrefix(s: string)
    ensures RStrip(s) == s[..|RStrip(s)|]
  {
    if s != [] && IsSpace(s[|s| - 1]) {
      RStripPrefix(s[..|s| - 1]);
    }
  }

  /** lstrip removes only whitespace. */
  lemma {:induction false} LStripRemovesSpaces(s: string)
    ensures forall k :: 0 <= k < |s| - |LStrip(s)| ==> IsSpace(s[k])
  {
    if s != [] && IsSpace(s[0]) {
      LStripRemovesSpaces(s[1..]);
      assert forall k :: 0 < k < |s| ==> s[k] == s[1..][k - 1];
    }
  }

  /** lstrip removes everything exactly when s is all whitespace. */
  lemma LStripSpaces(s: string)
    ensures LStrip(s) == [] <==> AllSpace(s)
  {
    LStripRemovesSpaces(s);
    LStripSuffix(s);
    var r := LStrip(s);
    if r != [] {
      assert s[|s| - |r|] == r[0];
    }
  }

  /** rstrip removes only whitespace. */
  lemma {:induction false} RStripRemovesSpaces(s: string)
    ensures forall k :: |RStrip(s)| <= k < |s| ==> IsSpace(s[k])
  {
    if s != [] && IsSpace(s[|s| - 1]) {
      RStripRemovesSpaces(s[..|s| - 1]);
      assert forall k :: 0 <= k < |s| - 1 ==> s[k] == s[..|s| - 1][k];
    }
  }

  /** rstrip removes everything exactly when s is all whitespace. */
  lemma RStripSpaces(s: string)
    ensures RStrip(s) == [] <==> AllSpace(s)
  {
    RStripRemovesSpaces(s);
    RStripPrefix(s);
    var r := RStrip(s);
    if r != [] {
      assert s[|r| - 1] == r[|r| - 1];
    }
  }

  /** strip leaves nothing exactly when s is all whitespace. */
  lemma StripSpaces(s: string)
    ensures Strip(s) == [] <==> AllSpace(s)
  {
    LStripSpaces(s);
    var l := LStrip(s);
    RStripSpaces(l);
    if l != [] {
      assert !AllSpace(l) by { assert !IsSpace(l[0]); }
    }
  }

  lemma {:induction false} LStripAppend(a: string, b: string)
    ensures LStrip(a + b) == if LStrip(a) != [] then LStrip(a) + b else LStrip(b)
  {
    if a != [] {
      assert (a + b)[0] == a[0] && (a + b)[1..] == a[1..] + b;
      if IsSpace(a[0]) { LStripAppend(a[1..], b); }
    } else {
      assert a + b == b;
    }
  }

  lemma {:induction false} RStripAppend(a: string, b: string)
    ensures RStrip(a + b) == if RStrip(b) != [] then a + RStrip(b) else RStrip(a)
  {
    if b != [] {
      assert (a + b)[|a + b| - 1] == b[|b| - 1] && (a + b)[..|a + b| - 1] == a + b[..|b| - 1];
      if IsSpace(b[|b| - 1]) { RStripAppend(a, b[..|b| - 1]); }
    } else {
      assert a + b == a;
    }
  }

  /** A string that neither starts nor ends with whitespace is its own strip. */
  lemma StripTrimmed(s: string)
    requires s != [] && !IsSpace(s[0]) && !IsSpace(s[|s| - 1])
    ensures LStrip(s) == s && RStrip(s) == s && Strip(s) == s
  {
  }

  /** A string that does not end with whitespace is its own rstrip. */
  lemma RStripTrimmed(s: string)
    requires s != [] && !IsSpace(s[|s| - 1])
    ensures RStrip(s) == s
  {
  }

  /** Left-stripping the left-stripped text again changes nothing. */
  lemma LStripIdempotent(s: string)
    ensures LStrip(LStrip(s)) == LStrip(s)
  {
  }

  lemma StripIdempotent(s: string)
    ensures Strip(Strip(s)) == Strip(s)
  {
    if Strip(s) != [] { StripTrimmed(Strip(s)); }
  }

  /** str.index(c): the position of the first occurrence of c. */
  function IndexOf(s: string, c: char): (k: nat)
    requires c in s
    ensures k < |s| && s[k] == c && c !in s[..k]
  {
    if s[0] == c then 0
    else
      assert s == [s[0]] + s[1..];
      var k := IndexOf(s[1..], c);
      assert s[..k + 1] == [s[0]] + s[1..][..k];
      k + 1
  }

  /** The position of the first whitespace character, or |s| when there is none. */
  function FirstSpace(s: string): (k: nat)
    ensures k <= |s| && (k < |s| ==> IsSpace(s[k]))
  {
    if s == [] || IsSpace(s[0]) then 0 else FirstSpace(s[1..]) + 1
  }

  /** No whitespace precedes the first whitespace character. */
  lemma {:induction false} FirstSpaceNoSpace(s: string)
    ensures NoSpace(s[..FirstSpace(s)])
  {
    if s != [] && !IsSpace(s[0]) {
      FirstSpaceNoSpace(s[1..]);
      var k := FirstSpace(s[1..]);
      assert s[..k + 1] == [s[0]] + s[1..][..k];
    }
  }

  lemma {:induction false} FirstSpaceJoined(a: string, b: string)
    requires NoSpace(a) && b != [] && IsSpace(b[0])
    ensures FirstSpace(a + b) == |a|
  {
    if a == [] {
      assert a + b == b;
    } else {
      assert (a + b)[0] == a[0] && (a + b)[1..] == a[1..] + b;
      FirstSpaceJoined(a[1..], b);
    }
  }

  /**
   * str.split(maxsplit=1): the first whitespace-delimited token and, when
   * anything but whitespace follows it, the remainder with its leading
   * whitespace removed.
   */
  function SplitOnce(s: string): (parts: seq<string>)
    ensures |parts| <= 2
    ensures parts == [] <==> LStrip(s) == []
    ensures parts != [] ==> parts[0] != []
    ensures |parts| == 2 ==> parts[1] != [] && !IsSpace(parts[1][0])
  {
    var t := LStrip(s);
    if t == [] then []
    else
      var k := FirstSpace(t);
      var rest := LStrip(t[k..]);
      if rest == [] then [t[..k]] else [t[..k], rest]
  }

  /** The parts of a split hold no whitespace at their ends, and the token none at all. */
  lemma SplitOnceSpaces(s: string)
    ensures SplitOnce(s) == [] <==> AllSpace(s)
    ensures SplitOnce(s) != [] ==> NoSpace(SplitOnce(s)[0])
  {
    LStripSpaces(s);
    var t := LStrip(s);
    if t != [] {
      FirstSpaceNoSpace(t);
    }
  }

  /** Splitting "token, a run of white space, rest" yields the token and the rest. */
  lemma SplitOnceJoined(tok: string, sep: string, rest: string)
    requires tok != [] && NoSpace(tok)
    requires sep != [] && AllSpace(sep)
    requires rest != [] && !IsSpace(rest[0])
    ensures SplitOnce(tok + sep + rest) == [tok, rest]
  {
    var s := tok + sep + rest;
    assert s[0] == tok[0];
    assert LStrip(s) == s;
    assert s == tok + (sep + rest);
    assert (sep + rest)[0] == sep[0];
    FirstSpaceJoined(tok, sep + rest);
    assert s[|tok|..] == sep + rest && s[..|tok|] == tok;
    LStripSpaces(sep);
    LStripAppend(sep, rest);
  }

  /** Splitting a single token yields just that token. */
  lemma SplitOnceToken(tok: string)
    requires tok != [] && NoSpace(tok)
    ensures SplitOnce(tok) == [tok]
  {
    assert LStrip(tok) == tok;
    assert FirstSpace(tok) == |tok|;
    assert tok[|tok|..] == [] && tok[..|tok|] == tok;
  }

  predicate IsLower(c: char) { 'a' <= c <= 'z' }

  function UpperChar(c: char): char {
    if IsLower(c) then (c as int - 32) as char else c
  }

  /** str.upper(), restricted to the ASCII letters. */
  function Upper(s: string): (r: string)
    ensures |r| == |s|
    ensures forall k :: 0 <= k < |r| ==> !IsLower(r[k])
    ensures forall k :: 0 <= k < |s| && !IsLower(s[k]) ==> r[k] == s[k]
    ensures forall k :: 0 <= k < |s| && IsLower(s[k]) ==> r[k] as int == s[k] as int - 32
  {
    seq(|s|, k requires 0 <= k < |s| => UpperChar(s[k]))
  }

  predicate IsCapital(c: char) { 'A' <= c <= 'Z' }

  /** Text in capitals is what Upper makes of every spelling of it in mixed case. */
  lemma UpperAnyCase(s: string, caps: string)
    requires |s| == |caps| && forall k :: 0 <= k < |caps| ==> IsCapital(caps[k])
    requires forall k :: 0 <= k < |s| ==> s[k] == caps[k] || s[k] as int == caps[k] as int + 32
    ensures Upper(s) == caps
  {
    var r := Upper(s);
    forall k | 0 <= k < |s|
      ensures r[k] == caps[k]
    {
      if s[k] != caps[k] {
        assert IsLower(s[k]);
      }
    }
  }

  predicate IsDigit(c: char) { '0' <= c <= '9' }

  /** A non-empty run of ASCII digits (str.isdigit() on ASCII text). */
  predicate IsDigits(s: string) {
    s != [] && forall k :: 0 <= k < |s| ==> IsDigit(s[k])
  }

  function DigitValue(c: char): (d: nat)
    requires IsDigit(c)
    ensures d < 10
  {
    c as int - '0' as int
  }

  function DigitsValue(s: string): nat
    requires forall k :: 0 <= k < |s| ==> IsDigit(s[k])
  {
    if s == [] then 0
    else 10 * DigitsValue(s[..|s| - 1]) + DigitValue(s[|s| - 1])
  }

  /** Decimal digits of n, most significant first, without leading zeros. */
  function NatToString(n: nat): (s: string)
    ensures IsDigits(s) && DigitsValue(s) == n
    ensures s[0] == '0' ==> s == "0"
  {
    var last := ['0' + (n % 10) as char];
    if n < 10 then last
    else
      var prefix := NatToString(n / 10);
      assert (prefix + last)[..|prefix|] == prefix;
      prefix + last
  }

  /** str(n) for an integer. */
  function IntToString(n: int): string {
    if n < 0 then "-" + NatToString(-n) else NatToString(n)
  }

  /** The information separators U+001C..U+001F: isspace() holds of them, but int() does not skip them. */
  predicate IsSeparator(c: char) { '\U{001C}' <= c <= '\U{001F}' }

  /** Whitespace that int() skips around a number. */
  predicate AllIntSpace(s: string) {
    forall k :: 0 <= k < |s| ==> IsSpace(s[k]) && !IsSeparator(s[k])
  }

  /** What strip() removes from s, on either side, holds no separator. */
  predicate IntMargins(s: string) {
    var l := LStrip(s);
    var t := RStrip(l);
    AllIntSpace(s[..|s| - |l|]) && AllIntSpace(l[|t|..])
  }

  /**
   * Python's int(s) on ASCII text: surrounding whitespace other than the
   * separators is ignored, an optional sign precedes at least one digit;
   * anything else is None (Python raises ValueError).
   */
  function ParseInt(s: string): Option<int> {
    var t := Strip(s);
    if !IntMargins(s) then None
    else if t != [] && (t[0] == '-' || t[0] == '+') then
      if IsDigits(t[1..]) then
        Some(if t[0] == '-' then -(DigitsValue(t[1..]) as int) else DigitsValue(t[1..]))
      else None
    else if IsDigits(t) then Some(DigitsValue(t))
    else None
  }

  /** int(str(n)) == n. */
  lemma ParseIntOfIntToString(n: int)
    ensures ParseInt(IntToString(n)) == Some(n)
  {
    var s := IntToString(n);
    var d := NatToString(if n < 0 then -n else n);
    assert s[|s| - 1] == d[|d| - 1];
    StripTrimmed(s);
    if n < 0 {
      assert s[1..] == d;
    }
  }

  /** Stripping whitespace from around a trimmed text. */
  lemma StripPadded(pre: string, d: string, post: string)
    requires AllSpace(pre) && AllSpace(post)
    requires d != [] && !IsSpace(d[0]) && !IsSpace(d[|d| - 1])
    ensures LStrip(pre + d + post) == d + post
    ensures RStrip(d + post) == d
  {
    StripTrimmed(d);
    LStripSpaces(pre);
    RStripSpaces(post);
    assert pre + d + post == pre + (d + post);
    LStripAppend(pre, d + post);
    assert (d + post)[0] == d[0];
    RStripAppend(d, post);
  }

  /** A text with non-space ends has nothing stripped, so no separator around it. */
  lemma TrimmedMargins(s: string)
    requires s != [] && !IsSpace(s[0]) && !IsSpace(s[|s| - 1])
    ensures IntMargins(s) && Strip(s) == s
  {
    StripTrimmed(s);
  }

  /** Whitespace int() skips, around a trimmed text, leaves margins without separators and strips to that text. */
  lemma PaddedMargins(pre: string, d: string, post: string)
    requires AllIntSpace(pre) && AllIntSpace(post)
    requires d != [] && !IsSpace(d[0]) && !IsSpace(d[|d| - 1])
    ensures IntMargins(pre + d + post) && Strip(pre + d + post) == d
  {
    var s := pre + d + post;
    StripPadded(pre, d, post);
    var l := LStrip(s);
    assert s[..|s| - |l|] == pre;
    assert l[|d|..] == post;
  }

  /** int() ignores whitespace around the number, and str() is read back: int(pre + str(n) + post) == n. */
  lemma ParseIntPadded(pre: string, n: int, post: string)
    requires AllIntSpace(pre) && AllIntSpace(post)
    ensures ParseInt(pre + IntToString(n) + post) == Some(n)
  {
    var d := IntToString(n);
    var digits := NatToString(if n < 0 then -n else n);
    assert d[|d| - 1] == digits[|digits| - 1];
    ParseIntOfIntToString(n);
    TrimmedMargins(d);
    PaddedMargins(pre, d, post);
  }

  /** A line that starts with a separator is refused by int(), though isspace() holds of it. */
  lemma ParseIntSeparator(s: string)
    requires s != [] && IsSeparator(s[0])
    ensures ParseInt(s) == None
  {
    var l := LStrip(s);
    assert l == LStrip(s[1..]);
    assert s[..|s| - |l|][0] == s[0];
  }
}
