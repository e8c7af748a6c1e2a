/** String helpers the two endpoints rely on: Python's `str.strip()`, the
    ASCII part of case folding used by the store's `ilike` filter, substring
    containment, and Python's `str(int)` rendering of row numbers. */
module Text {

  /** The ASCII characters for which Python's `str.isspace()` holds. */
  predicate IsWhitespace(c: char) {
    c == ' ' || ('\U{0009}' <= c <= '\U{000D}') || ('\U{001C}' <= c <= '\U{001F}')
  }

  predicate AllWhitespace(s: string) {
    forall k :: 0 <= k < |s| ==> IsWhitespace(s[k])
  }

  /** `s.lstrip()`: drops the leading whitespace and nothing else. */
  function TrimStart(s: string): (r: string)
    ensures |r| <= |s| && r == s[|s| - |r|..]
    ensures AllWhitespace(s[..|s| - |r|])
    ensures r != [] ==> !IsWhitespace(r[0])
    decreases |s|
  {
    if s != [] && IsWhitespace(s[0]) then TrimStart(s[1..]) else s
  }

  /** `s.rstrip()`: drops the trailing whitespace and nothing else. */
  function TrimEnd(s: string): (r: string)
    ensures |r| <= |s| && r == s[..|r|]
    ensures AllWhitespace(s[|r|..])
    ensures r != [] ==> !IsWhitespace(r[|r| - 1])
    decreases |s|
  {
    if s != [] && IsWhitespace(s[|s| - 1]) then TrimEnd(s[..|s| - 1]) else s
  }

  /** `s.strip()`. */
  function Strip(s: string): (r: string)
    ensures |r| <= |s|
    ensures r != [] ==> !IsWhitespace(r[0]) && !IsWhitespace(r[|r| - 1])
  {
    TrimEnd(TrimStart(s))
  }

  lemma {:induction false} TrimStartOfPadded(pre: string, core: string)
    requires AllWhitespace(pre)
    requires core == [] || !IsWhitespace(core[0])
    ensures TrimStart(pre + core) == core
    decreases |pre|
  {
    if pre != [] {
      assert (pre + core)[1..] == pre[1..] + core;
      TrimStartOfPadded(pre[1..], core);
    } else {
      assert pre + core == core;
    }
  }

  lemma {:induction false} TrimEndOfPadded(core: string, post: string)
    requires AllWhitespace(post)
    requires core == [] || !IsWhitespace(core[|core| - 1])
    ensures TrimEnd(core + post) == core
    decreases |post|
  {
    if post != [] {
      var shorter := post[..|post| - 1];
      assert (core + post)[..|core + post| - 1] == core + shorter;
      TrimEndOfPadded(core, shorter);
    } else {
      assert core + post == core;
    }
  }

  /** Strip removes exactly the surrounding whitespace: a text with no
      whitespace at its ends, padded with any whitespace on either side,
      strips back to itself. */
  lemma StripPadded(pre: string, core: string, post: string)
    requires AllWhitespace(pre) && AllWhitespace(post)
    requires core != [] ==> !IsWhitespace(core[0]) && !IsWhitespace(core[|core| - 1])
    ensures Strip(pre + core + post) == core
  {
    assert pre + core + post == pre + (core + post);
    if core == [] {
      assert pre + core + post == pre + post;
      if post == [] {
        TrimStartOfPadded(pre, []);
        assert pre + [] == pre;
      } else {
        TrimStartOfPadded(pre + post, []);
        assert AllWhitespace(pre + post);
        assert pre + post + [] == pre + post;
      }
    } else {
      TrimStartOfPadded(pre, core + post);
      TrimEndOfPadded(core, post);
    }
  }

  /** Stripping twice is stripping once. */
  lemma StripIdempotent(s: string)
    ensures Strip(Strip(s)) == Strip(s)
  {
    var r := Strip(s);
    assert TrimStart(r) == r;
    assert TrimEnd(r) == r;
  }

  /** ASCII case folding of one character (`A`..`Z` to `a`..`z`). */
  function LowerChar(c: char): (d: char)
    ensures 'A' <= c <= 'Z' ==> d as int == c as int + 32
    ensures !('A' <= c <= 'Z') ==> d == c
    ensures !('A' <= d <= 'Z')
  {
    if 'A' <= c <= 'Z' then (c as int + 32) as char else c
  }

  function Lower(s: string): (r: string)
    ensures |r| == |s|
    ensures forall k :: 0 <= k < |s| ==> r[k] == LowerChar(s[k])
  {
    seq(|s|, k requires 0 <= k < |s| => LowerChar(s[k]))
  }

  lemma LowerIdempotent(s: string)
    ensures Lower(Lower(s)) == Lower(s)
  {
  }

  /** `needle` occurs in `hay` starting at position `at`. */
  predicate OccursAt(hay: string, needle: string, at: nat) {
    at + |needle| <= |hay| && hay[at..at + |needle|] == needle
  }

  /** Substring containment, scanning `hay` from the left. */
  predicate Contains(hay: string, needle: string)
    decreases |hay|
  {
    if |needle| <= |hay| && hay[..|needle|] == needle then true
    else if |needle| >= |hay| then false
    else Contains(hay[1..], needle)
  }

  /** The scan answers true exactly when the needle occurs at some
      position. */
  lemma {:induction false} ContainsOccurs(hay: string, needle: string)
    ensures Contains(hay, needle) <==> exists at: nat :: OccursAt(hay, needle, at)
    decreases |hay|
  {
    if |needle| <= |hay| && hay[..|needle|] == needle {
      assert OccursAt(hay, needle, 0);
    } else if |needle| >= |hay| {
      forall at: nat ensures !OccursAt(hay, needle, at) {
        if at == 0 && |needle| == |hay| {
          assert hay[0..|needle|] == hay[..|needle|];
        }
      }
    } else {
      ContainsOccurs(hay[1..], needle);
      if Contains(hay[1..], needle) {
        var at: nat :| OccursAt(hay[1..], needle, at);
        assert hay[at + 1..at + 1 + |needle|] == hay[1..][at..at + |needle|];
        assert OccursAt(hay, needle, at + 1);
      } else {
        forall at: nat | OccursAt(hay, needle, at)
          ensures at > 0 && OccursAt(hay[1..], needle, at - 1)
        {
          assert at != 0 by {
            assert hay[0..|needle|] == hay[..|needle|];
          }
          assert hay[1..][at - 1..at - 1 + |needle|] == hay[at..at + |needle|];
        }
      }
    }
  }

  /** The store's `ilike '%term%'`: case-insensitive substring match. */
  predicate ContainsIgnoringCase(hay: string, needle: string)
    ensures ContainsIgnoringCase(hay, needle) <==> exists at: nat :: OccursAt(Lower(hay), Lower(needle), at)
  {
    ContainsOccurs(Lower(hay), Lower(needle));
    Contains(Lower(hay), Lower(needle))
  }

  /** The empty term occurs in every name. */
  lemma EmptyTermMatchesEverything(hay: string)
    ensures ContainsIgnoringCase(hay, "")
  {
    assert Lower(hay)[..0] == Lower("");
  }

  /** Folding the case of either side never changes the outcome. */
  lemma MatchIgnoresCase(hay: string, needle: string)
    ensures ContainsIgnoringCase(hay, needle) == ContainsIgnoringCase(Lower(hay), needle)
    ensures ContainsIgnoringCase(hay, needle) == ContainsIgnoringCase(hay, Lower(needle))
  {
    LowerIdempotent(hay);
    LowerIdempotent(needle);
  }

  predicate IsDigit(c: char) {
    '0' <= c <= '9'
  }

  function DigitChar(d: nat): (c: char)
    requires d < 10
    ensures IsDigit(c) && DigitValue(c) == d
  {
    ('0' as int + d) as char
  }

  function DigitValue(c: char): (d: nat)
    requires IsDigit(c)
    ensures d < 10
  {
    assert c as int >= '0' as int;
    c as int - '0' as int
  }

  /** Value of a decimal digit string, read most significant digit first. */
  function DigitsValue(s: string): nat
    requires forall k :: 0 <= k < |s| ==> IsDigit(s[k])
  {
    if s == [] then 0
    else 10 * DigitsValue(s[..|s| - 1]) + DigitValue(s[|s| - 1])
  }

  /** Python's `str(n)` for a non-negative integer: decimal digits without
      leading zeros, which read back as `n`. */
  function Decimal(n: nat): (s: string)
    ensures |s| >= 1
    ensures forall k :: 0 <= k < |s| ==> IsDigit(s[k])
    ensures |s| > 1 ==> s[0] != '0'
    ensures DigitsValue(s) == n
  {
    if n < 10 then [DigitChar(n)]
    else
      var s := Decimal(n / 10) + [DigitChar(n % 10)];
      assert s[..|s| - 1] == Decimal(n / 10);
      s
  }

  /** The longest run of digits at the front of `s`. */
  function LeadingDigits(s: string): (r: string)
    ensures |r| <= |s| && r == s[..|r|]
    ensures forall k :: 0 <= k < |r| ==> IsDigit(r[k])
  {
    if s != [] && IsDigit(s[0]) then [s[0]] + LeadingDigits(s[1..]) else []
  }

  lemma {:induction false} LeadingDigitsOfDigitsThenOther(digits: string, rest: string)
    requires forall k :: 0 <= k < |digits| ==> IsDigit(digits[k])
    requires rest == [] || !IsDigit(rest[0])
    ensures LeadingDigits(digits + rest) == digits
    decreases |digits|
  {
    if digits == [] {
      assert digits + rest == rest;
    } else {
      assert (digits + rest)[1..] == digits[1..] + rest;
      LeadingDigitsOfDigitsThenOther(digits[1..], rest);
      assert [digits[0]] + digits[1..] == digits;
    }
  }
}
