/** The string primitives of JavaScript that the core relies on: `split` and `join` with a
    one-character separator, ASCII lower-casing, the `\d+$` suffix and number formatting. */
module Strings {

  import opened Wrappers

  /** An optional string (an environment variable, a header, a query field) that is truthy:
      present and not empty. */
  predicate Present(v: Option<string>) {
    v.Some? && v.value != ""
  }

  /** The index of the first occurrence of `c` in `s` (`String.prototype.indexOf`). */
  function IndexOf(s: string, c: char): (i: nat)
    requires c in s
    ensures i < |s| && s[i] == c && c !in s[..i]
  {
    if s[0] == c then 0 else 1 + IndexOf(s[1..], c)
  }

  /** The first `d` of `a + [d] + b` is the one after `a` when `a` holds none. */
  lemma {:induction false} IndexOfAfter(a: string, d: char, b: string)
    requires d !in a
    ensures d in a + [d] + b && IndexOf(a + [d] + b, d) == |a|
  {
    var s := a + [d] + b;
    assert s[|a|] == d;
    if |a| > 0 {
      assert s[1..] == a[1..] + [d] + b;
      IndexOfAfter(a[1..], d, b);
    }
  }

  /** `s.split(d)` for a one-character separator: the maximal separator-free pieces,
      including the empty pieces before a leading, after a trailing and between two
      adjacent separators. */
  function Split(s: string, d: char): (parts: seq<string>)
    ensures |parts| >= 1
    ensures (d in s) <==> |parts| > 1
    ensures forall i :: 0 <= i < |parts| ==> d !in parts[i]
    decreases |s|
  {
    if d !in s then [s]
    else
      var i := IndexOf(s, d);
      [s[..i]] + Split(s[i + 1..], d)
  }

  /** Splitting `a + [d] + b`, where `a` holds no separator, gives `a` and then the pieces of `b`. */
  lemma SplitAtFirst(a: string, d: char, b: string)
    requires d !in a
    ensures Split(a + [d] + b, d) == [a] + Split(b, d)
  {
    var s := a + [d] + b;
    IndexOfAfter(a, d, b);
    assert s[..|a|] == a;
    assert s[|a| + 1..] == b;
  }

  /** `parts.join(d)`. */
  function Join(parts: seq<string>, d: char): string
  {
    if |parts| == 0 then ""
    else if |parts| == 1 then parts[0]
    else parts[0] + [d] + Join(parts[1..], d)
  }

  /** Joining the pieces of a split gives back the original string. */
  lemma {:induction false} JoinSplit(s: string, d: char)
    ensures Join(Split(s, d), d) == s
    decreases |s|
  {
    if d in s {
      var i := IndexOf(s, d);
      var rest := s[i + 1..];
      JoinSplit(rest, d);
      assert Split(s, d) == [s[..i]] + Split(rest, d);
      assert s == s[..i] + [d] + rest;
    }
  }

  /** Splitting a join of separator-free pieces gives back the pieces. */
  lemma {:induction false} SplitJoin(parts: seq<string>, d: char)
    requires |parts| >= 1
    requires forall i :: 0 <= i < |parts| ==> d !in parts[i]
    ensures Split(Join(parts, d), d) == parts
  {
    if |parts| > 1 {
      var s := Join(parts, d);
      var tail := Join(parts[1..], d);
      assert s == parts[0] + [d] + tail;
      IndexOfAfter(parts[0], d, tail);
      var i := IndexOf(s, d);
      assert s[..i] == parts[0];
      assert s[i + 1..] == tail;
      SplitJoin(parts[1..], d);
    }
  }

  /** A character of the regular-expression class `\d` (ASCII digits only). */
  predicate IsDigit(c: char) {
    '0' <= c <= '9'
  }

  /** `s.replace(/\d+$/, '')`: `s` without its trailing run of ASCII digits. */
  function StripTrailingDigits(s: string): (r: string)
    ensures |r| <= |s| && r == s[..|r|]
    ensures forall i :: |r| <= i < |s| ==> IsDigit(s[i])
    ensures |r| > 0 ==> !IsDigit(r[|r| - 1])
  {
    if |s| > 0 && IsDigit(s[|s| - 1]) then StripTrailingDigits(s[..|s| - 1]) else s
  }

  /** Stripping the digits off `p + digits` gives back `p` whenever `p` does not itself end in a
      digit: a host called `host1` has prefix `host`. */
  lemma {:induction false} StripDigitSuffix(p: string, digits: string)
    requires |p| > 0 ==> !IsDigit(p[|p| - 1])
    requires forall i :: 0 <= i < |digits| ==> IsDigit(digits[i])
    ensures StripTrailingDigits(p + digits) == p
    decreases |digits|
  {
    if |digits| > 0 {
      var s := p + digits;
      assert s[..|s| - 1] == p + digits[..|digits| - 1];
      StripDigitSuffix(p, digits[..|digits| - 1]);
    } else {
      assert p + digits == p;
    }
  }

  /** ASCII lower-casing of one character. */
  function ToLowerChar(c: char): char {
    if 'A' <= c <= 'Z' then (c as int + 32) as char else c
  }

  /** `s.toLowerCase()` restricted to ASCII letters; every other character is kept. */
  function ToLower(s: string): (r: string)
    ensures |r| == |s|
    ensures forall i :: 0 <= i < |s| ==> r[i] == ToLowerChar(s[i])
  {
    seq(|s|, i requires 0 <= i < |s| => ToLowerChar(s[i]))
  }

  /** The decimal digit character for `d`. */
  function DigitChar(d: nat): (c: char)
    requires d < 10
    ensures IsDigit(c)
  {
    ('0' as int + d) as char
  }

  /** The decimal text of a natural number, as a template literal writes it. */
  function NatToString(n: nat): (s: string)
    ensures |s| >= 1
    ensures forall i :: 0 <= i < |s| ==> IsDigit(s[i])
  {
    if n < 10 then [DigitChar(n)] else NatToString(n / 10) + [DigitChar(n % 10)]
  }

  /** The decimal text of an integer, with a leading minus sign when it is negative. */
  function IntToString(i: int): string
  {
    if i < 0 then "-" + NatToString(-i) else NatToString(i)
  }
}
