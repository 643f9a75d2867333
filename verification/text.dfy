/** String primitives shared by the browser and the server parts of the model:
    the two languages' whitespace classes, ASCII case mapping, substring search,
    single and global character removal, and Python's slice bounds. */
module Text {

  /** JavaScript's WhiteSpace and LineTerminator code points (sections 12.2 and
      12.3 of ECMA-262): the characters `String.prototype.trim`, `parseFloat`
      and `parseInt` skip. */
  predicate IsJsSpace(c: char) {
    var n := c as int;
    (0x09 <= n <= 0x0D) || n == 0x20 || n == 0xA0 || n == 0x1680
    || (0x2000 <= n <= 0x200A) || n == 0x2028 || n == 0x2029 || n == 0x202F
    || n == 0x205F || n == 0x3000 || n == 0xFEFF
  }

  /** Python's `str.isspace` class, which `float()` strips from both ends. */
  predicate IsPySpace(c: char) {
    var n := c as int;
    (0x09 <= n <= 0x0D) || (0x1C <= n <= 0x20) || n == 0x85 || n == 0xA0
    || n == 0x1680 || (0x2000 <= n <= 0x200A) || n == 0x2028 || n == 0x2029
    || n == 0x202F || n == 0x205F || n == 0x3000
  }

  predicate IsDigit(c: char) {
    '0' <= c <= '9'
  }

  function DigitValue(c: char): nat
    requires IsDigit(c)
  {
    (c as int) - ('0' as int)
  }

  predicate AllDigits(s: string) {
    forall i :: 0 <= i < |s| ==> IsDigit(s[i])
  }

  /** The number a string of decimal digits denotes (most significant first). */
  function DigitsValue(s: string): nat
    requires AllDigits(s)
  {
    if |s| == 0 then 0 else DigitsValue(s[..|s| - 1]) * 10 + DigitValue(s[|s| - 1])
  }

  /** Decimal digits of `n`, without leading zeros ("0" for zero). */
  function NatToDigits(n: nat): (s: string)
    ensures |s| >= 1 && AllDigits(s)
    ensures DigitsValue(s) == n
    ensures n > 0 ==> s[0] != '0'
  {
    if n < 10 then [('0' as int + n) as char]
    else
      var prefix := NatToDigits(n / 10);
      var s := prefix + [('0' as int + n % 10) as char];
      assert s[..|s| - 1] == prefix;
      s
  }

  /** Number of leading characters of `s` that satisfy `p`. */
  function LeadingCount(s: string, p: char -> bool): (n: nat)
    ensures n <= |s|
    ensures forall i :: 0 <= i < n ==> p(s[i])
    ensures n == |s| || !p(s[n])
  {
    if |s| == 0 || !p(s[0]) then 0 else 1 + LeadingCount(s[1..], p)
  }

  /** Number of trailing characters of `s` that satisfy `p`. */
  function TrailingCount(s: string, p: char -> bool): (n: nat)
    ensures n <= |s|
    ensures forall i :: |s| - n <= i < |s| ==> p(s[i])
    ensures n == |s| || !p(s[|s| - n - 1])
  {
    if |s| == 0 || !p(s[|s| - 1]) then 0 else 1 + TrailingCount(s[..|s| - 1], p)
  }

  /** `s` without its leading run of `p` characters. */
  function TrimStart(s: string, p: char -> bool): (r: string)
    ensures |r| <= |s| && r == s[|s| - |r|..]
    ensures |r| == 0 || !p(r[0])
    ensures forall i :: 0 <= i < |s| - |r| ==> p(s[i])
  {
    s[LeadingCount(s, p)..]
  }

  /** `s` without leading and trailing runs of `p` characters. */
  function Trim(s: string, p: char -> bool): (r: string)
    ensures |r| == 0 || (!p(r[0]) && !p(r[|r| - 1]))
    ensures |r| == 0 <==> forall i :: 0 <= i < |s| ==> p(s[i])
    ensures exists i :: 0 <= i <= |s| - |r| && OccursAt(s, r, i)
  {
    var lead := LeadingCount(s, p);
    if lead == |s| then
      assert OccursAt(s, "", 0);
      ""
    else
      var rest := s[lead..];
      var trail := TrailingCount(rest, p);
      assert trail < |rest|;
      var r := rest[..|rest| - trail];
      assert r == s[lead..lead + |r|];
      assert OccursAt(s, r, lead);
      r
  }

  /** A string that starts and ends outside `p` is its own trim. */
  lemma TrimUnchanged(s: string, p: char -> bool)
    requires |s| > 0 && !p(s[0]) && !p(s[|s| - 1])
    ensures Trim(s, p) == s
  {
    assert LeadingCount(s, p) == 0;
    assert s[0..] == s;
    assert TrailingCount(s, p) == 0;
  }

  /** Python's `str.strip()` with no argument: white space (`IsPySpace`)
      removed from both ends. */
  function PyStrip(s: string): (r: string)
    ensures |r| <= |s|
  {
    var lead := PyLeading(s);
    if lead == |s| then "" else s[lead..|s| - PyTrailing(s[lead..])]
  }

  function PyLeading(s: string): (n: nat)
    ensures n <= |s|
  {
    if |s| == 0 || !IsPySpace(s[0]) then 0 else 1 + PyLeading(s[1..])
  }

  function PyTrailing(s: string): (n: nat)
    ensures n <= |s|
  {
    if |s| == 0 || !IsPySpace(s[|s| - 1]) then 0 else 1 + PyTrailing(s[..|s| - 1])
  }

  /** A string that starts and ends outside the white space class is its own
      strip. */
  lemma PyStripUnchanged(s: string)
    requires |s| > 0 && !IsPySpace(s[0]) && !IsPySpace(s[|s| - 1])
    ensures PyStrip(s) == s
  {
    assert PyLeading(s) == 0;
    assert s[0..] == s;
  }

  /** A sign in front of text that ends outside the white space class
      strips to itself. */
  lemma PyStripSigned(sign: char, u: string)
    requires !IsPySpace(sign) && |u| > 0 && !IsPySpace(u[|u| - 1])
    ensures PyStrip([sign] + u) == [sign] + u
  {
    var t := [sign] + u;
    assert t[0] == sign && t[|t| - 1] == u[|u| - 1];
    PyStripUnchanged(t);
  }

  /** JavaScript's `String.prototype.trim`. */
  function JsTrim(s: string): string {
    Trim(s, IsJsSpace)
  }

  function LowerChar(c: char): char {
    if 'A' <= c <= 'Z' then (c as int + 32) as char else c
  }

  function UpperChar(c: char): char {
    if 'a' <= c <= 'z' then (c as int - 32) as char else c
  }

  /** Lower-casing as `toLowerCase` / `str.lower` do it on ASCII letters. */
  function ToLower(s: string): (r: string)
    ensures |r| == |s|
    ensures forall i :: 0 <= i < |s| ==> r[i] == LowerChar(s[i])
  {
    seq(|s|, i requires 0 <= i < |s| => LowerChar(s[i]))
  }

  /** Upper-casing as `toUpperCase` does it on ASCII letters. */
  function ToUpper(s: string): (r: string)
    ensures |r| == |s|
    ensures forall i :: 0 <= i < |s| ==> r[i] == UpperChar(s[i])
  {
    seq(|s|, i requires 0 <= i < |s| => UpperChar(s[i]))
  }

  /** `needle` occurs in `hay` starting at index `i`. */
  predicate OccursAt(hay: string, needle: string, i: int) {
    0 <= i && i + |needle| <= |hay| && hay[i..i + |needle|] == needle
  }

  /** Substring test: JavaScript's `includes`, Python's `in` on strings. */
  predicate Contains(hay: string, needle: string) {
    exists i :: 0 <= i <= |hay| - |needle| && OccursAt(hay, needle, i)
  }

  lemma ContainsWitness(hay: string, needle: string, i: int)
    requires OccursAt(hay, needle, i)
    ensures Contains(hay, needle)
  {
  }

  /** A string occurring inside a part of `hay` occurs in `hay`. */
  lemma ContainsInside(pre: string, mid: string, post: string, needle: string)
    requires Contains(mid, needle)
    ensures Contains(pre + mid + post, needle)
  {
    var i :| 0 <= i <= |mid| - |needle| && OccursAt(mid, needle, i);
    var hay := pre + mid + post;
    assert hay[|pre| + i..|pre| + i + |needle|] == mid[i..i + |needle|];
    ContainsWitness(hay, needle, |pre| + i);
  }

  /** Index of the first `c` in `s`, if any. */
  function IndexOf(s: string, c: char): (r: int)
    ensures -1 <= r < |s|
    ensures r == -1 <==> c !in s
    ensures r >= 0 ==> s[r] == c && c !in s[..r]
  {
    if |s| == 0 then -1
    else if s[0] == c then 0
    else
      var k := IndexOf(s[1..], c);
      assert s[1..] == s[..|s|][1..];
      if k == -1 then -1
      else
        assert s[..k + 1] == [s[0]] + s[1..][..k];
        k + 1
  }

  /** JavaScript's `s.replace(c, "")` with a one-character string pattern:
      only the FIRST occurrence goes. */
  function RemoveFirst(s: string, c: char): (r: string)
    ensures c !in s ==> r == s
    ensures c in s ==> |r| == |s| - 1
    ensures c in s ==> exists k :: 0 <= k < |s| && s[k] == c && c !in s[..k] && r == s[..k] + s[k + 1..]
  {
    var k := IndexOf(s, c);
    if k < 0 then s else s[..k] + s[k + 1..]
  }

  /** Python's `s.replace(c, "")`: EVERY occurrence goes. */
  function RemoveAll(s: string, c: char): (r: string)
    ensures c !in r
    ensures |r| <= |s|
    ensures c !in s ==> r == s
  {
    if |s| == 0 then ""
    else if s[0] == c then RemoveAll(s[1..], c)
    else [s[0]] + RemoveAll(s[1..], c)
  }

  lemma RemoveAllAppend(a: string, b: string, c: char)
    ensures RemoveAll(a + b, c) == RemoveAll(a, c) + RemoveAll(b, c)
  {
    if |a| == 0 {
      assert a + b == b;
    } else {
      assert (a + b)[1..] == a[1..] + b;
    }
  }

  /** Python's `s[:n]`: a negative bound counts from the end. */
  function PyPrefix<T>(s: seq<T>, n: int): (r: seq<T>)
    ensures n >= 0 ==> |r| == if n < |s| then n else |s|
    ensures n < 0 ==> |r| == if |s| + n > 0 then |s| + n else 0
    ensures r == s[..|r|]
  {
    if n >= 0 then (if n < |s| then s[..n] else s)
    else (if |s| + n > 0 then s[..|s| + n] else [])
  }

  /** Python's `s[n:]` for a negative `n`: the last `-n` elements, or all of `s`. */
  function PyLast<T>(s: seq<T>, n: nat): (r: seq<T>)
    ensures |r| == if n < |s| then n else |s|
    ensures r == s[|s| - |r|..]
  {
    if n < |s| then s[|s| - n..] else s
  }
}
