/**
 * The handful of JavaScript string operations the core relies on:
 * `startsWith`, `slice`, `split('.')[0]`, `parseInt` on a child segment and
 * the decimal rendering of an array index.
 */
module Strings {
  import opened Wrappers

  /** `s.startsWith(prefix)`: a raw character-prefix test. */
  predicate StartsWith(s: string, prefix: string) {
    |prefix| <= |s| && s[..|prefix|] == prefix
  }

  /** `flatten`'s `join`: the bare child key at the root, `root.child` below it. */
  function Join(root: string, child: string): string {
    if |root| == 0 then child else root + "." + child
  }

  /** `s.slice(n)` for a non-negative `n`: empty once `n` reaches the end. */
  function Drop(s: string, n: nat): (r: string)
    ensures n <= |s| ==> r == s[n..]
    ensures n >= |s| ==> r == []
  {
    if n < |s| then s[n..] else []
  }

  /** `s.split('.')[0]`: everything before the first dot. */
  function FirstSegment(s: string): (seg: string)
    ensures StartsWith(s, seg)
    ensures '.' !in seg
    ensures |seg| < |s| ==> s[|seg|] == '.'
  {
    if s == [] || s[0] == '.' then [] else [s[0]] + FirstSegment(s[1..])
  }

  /**
   * The child segment `rebuild(key, …)` reads off a matching key `k`:
   * `k.slice(key.length + 1).split('.')[0]`.
   */
  function ChildSegment(k: string, key: string): string {
    FirstSegment(Drop(k, |key| + 1))
  }

  predicate IsDigit(c: char) {
    '0' <= c <= '9'
  }

  predicate AllDigits(s: string) {
    forall i :: 0 <= i < |s| ==> IsDigit(s[i])
  }

  /** The leading run of decimal digits of `s`. */
  function DigitRun(s: string): (ds: string)
    ensures StartsWith(s, ds) && AllDigits(ds)
    ensures |ds| < |s| ==> !IsDigit(s[|ds|])
  {
    if s == [] || !IsDigit(s[0]) then [] else [s[0]] + DigitRun(s[1..])
  }

  function DigitValue(c: char): nat
    requires IsDigit(c)
  {
    (c as int - '0' as int) as nat
  }

  function DigitChar(d: nat): (c: char)
    requires d < 10
    ensures IsDigit(c) && DigitValue(c) == d
  {
    ('0' as int + d) as char
  }

  /** The number a string of decimal digits denotes. */
  function DigitsValue(ds: string): nat
    requires AllDigits(ds)
  {
    if ds == [] then 0 else DigitsValue(ds[..|ds| - 1]) * 10 + DigitValue(ds[|ds| - 1])
  }

  /**
   * `parseInt(s)`, simplified to the leading decimal digit run: `None`
   * (JavaScript's NaN) when `s` does not start with a digit.
   */
  function ParseInt(s: string): (r: Option<nat>)
    ensures r.Some? <==> |s| > 0 && IsDigit(s[0])
  {
    var ds := DigitRun(s);
    if |ds| == 0 then None else Some(DigitsValue(ds))
  }

  /** `String(n)` for a natural number: its decimal digits, no leading zero. */
  function NatToString(n: nat): (s: string)
    ensures |s| > 0 && AllDigits(s)
    ensures '.' !in s
  {
    if n < 10 then [DigitChar(n)] else NatToString(n / 10) + [DigitChar(n % 10)]
  }

  lemma {:induction false} DigitRunOfDigits(s: string)
    requires AllDigits(s)
    ensures DigitRun(s) == s
  {
    if s != [] {
      DigitRunOfDigits(s[1..]);
    }
  }

  lemma {:induction false} DigitsValueOfNatToString(n: nat)
    ensures DigitsValue(NatToString(n)) == n
  {
    if n >= 10 {
      DigitsValueOfNatToString(n / 10);
      var s := NatToString(n);
      assert s[..|s| - 1] == NatToString(n / 10);
    }
  }

  /** Reading back a rendered index gives the index again. */
  lemma ParseNatToString(n: nat)
    ensures ParseInt(NatToString(n)) == Some(n)
  {
    DigitRunOfDigits(NatToString(n));
    DigitsValueOfNatToString(n);
  }

  /** A child key without dots is exactly the segment of `key.child`. */
  lemma ChildSegmentOfJoin(key: string, child: string, rest: string)
    requires '.' !in child
    requires rest == [] || rest[0] == '.'
    ensures ChildSegment(key + "." + child + rest, key) == child
  {
    var k := key + "." + child + rest;
    assert Drop(k, |key| + 1) == child + rest;
    FirstSegmentOf(child, rest);
  }

  lemma {:induction false} FirstSegmentOf(seg: string, rest: string)
    requires '.' !in seg
    requires rest == [] || rest[0] == '.'
    ensures FirstSegment(seg + rest) == seg
  {
    if seg != [] {
      assert (seg + rest)[1..] == seg[1..] + rest;
      FirstSegmentOf(seg[1..], rest);
    } else {
      assert seg + rest == rest;
    }
  }
}
