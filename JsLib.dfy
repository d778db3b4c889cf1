/** The JavaScript built-ins the automation relies on, stated over `seq<char>`:
    `String.prototype.startsWith`, `includes`, `toLowerCase`, `split('/').pop()`,
    the global `parseInt` without a radix, decimal rendering of a non-negative integer
    in a template string, and `Array.prototype.find`. */
module JsLib {
  import opened Wrappers

  // ---------------------------------------------------------------------------
  // Searching in strings
  // ---------------------------------------------------------------------------

  /** `s.startsWith(p)` */
  predicate StartsWith(s: string, p: string) {
    |p| <= |s| && s[..|p|] == p
  }

  /** The text `p` occurs in `s` at index `i`. */
  predicate OccursAt(s: string, p: string, i: nat) {
    i + |p| <= |s| && s[i..i + |p|] == p
  }

  /** `s.includes(p)` */
  predicate Includes(s: string, p: string) {
    exists i: nat :: i <= |s| && OccursAt(s, p, i)
  }

  /** A character of `p` that `s` lacks keeps `p` out of `s`. */
  lemma {:induction false} MissingCharNotIncluded(s: string, p: string, c: char)
    requires c in p && c !in s
    ensures !Includes(s, p)
  {
    var k :| 0 <= k < |p| && p[k] == c;
    forall i: nat | i <= |s| && i + |p| <= |s|
      ensures !OccursAt(s, p, i)
    {
      assert s[i..i + |p|][k] == s[i + k] != c;
    }
  }

  /** The length of the longest run of characters satisfying `p` that starts at `i`
      (the greedy part of a regular expression such as `[^/]+` or `\d+`). */
  function RunWhile(s: string, i: nat, p: char -> bool): (k: nat)
    requires i <= |s|
    ensures i + k <= |s|
    ensures forall j :: i <= j < i + k ==> p(s[j])
    ensures i + k < |s| ==> !p(s[i + k])
    decreases |s| - i
  {
    if i < |s| && p(s[i]) then 1 + RunWhile(s, i + 1, p) else 0
  }

  /** A run is determined by where the first failing character is. */
  lemma {:induction false} RunWhileExact(s: string, i: nat, k: nat, p: char -> bool)
    requires i + k <= |s|
    requires forall j :: i <= j < i + k ==> p(s[j])
    requires i + k == |s| || !p(s[i + k])
    ensures RunWhile(s, i, p) == k
    decreases k
  {
    if k > 0 {
      RunWhileExact(s, i + 1, k - 1, p);
    }
  }

  /** The index of the first `c` in `s`, or `|s|` when there is none. */
  function FirstIndexOf(s: string, c: char): (r: nat)
    ensures r <= |s| && (r < |s| ==> s[r] == c)
    ensures forall j :: 0 <= j < r ==> s[j] != c
  {
    if s == [] then 0 else if s[0] == c then 0 else 1 + FirstIndexOf(s[1..], c)
  }

  lemma {:induction false} FirstIndexOfJoin(x: string, c: char, y: string)
    requires c !in x
    ensures FirstIndexOf(x + [c] + y, c) == |x|
  {
    if x != [] {
      assert (x + [c] + y)[1..] == x[1..] + [c] + y;
      FirstIndexOfJoin(x[1..], c, y);
    }
  }

  /** Joining with a separator that the first part lacks can be undone. */
  lemma {:induction false} JoinInjective(x1: string, y1: string, x2: string, y2: string, c: char)
    requires c !in x1 && c !in x2
    requires x1 + [c] + y1 == x2 + [c] + y2
    ensures x1 == x2 && y1 == y2
  {
    var s := x1 + [c] + y1;
    FirstIndexOfJoin(x1, c, y1);
    FirstIndexOfJoin(x2, c, y2);
    assert x1 == s[..|x1|] && x2 == s[..|x2|];
    assert y1 == s[|x1| + 1..] && y2 == s[|x2| + 1..];
  }

  // ---------------------------------------------------------------------------
  // Case mapping
  // ---------------------------------------------------------------------------

  function LowerChar(c: char): char {
    if 'A' <= c <= 'Z' then (c as int - 'A' as int + 'a' as int) as char else c
  }

  /** `s.toLowerCase()`, restricted to the ASCII letters. */
  function ToLower(s: string): string {
    seq(|s|, i requires 0 <= i < |s| => LowerChar(s[i]))
  }

  // ---------------------------------------------------------------------------
  // Digits, decimal rendering and parseInt
  // ---------------------------------------------------------------------------

  /** The value of `c` as a digit in radix 36 (0-9, then a-z or A-Z); 36 for any other character. */
  function DigitValue(c: char): nat {
    if '0' <= c <= '9' then c as int - '0' as int
    else if 'a' <= c <= 'z' then c as int - 'a' as int + 10
    else if 'A' <= c <= 'Z' then c as int - 'A' as int + 10
    else 36
  }

  predicate IsRadixDigit(c: char, radix: nat) {
    DigitValue(c) < radix
  }

  /** `\d` in a JavaScript regular expression without the `u` flag. */
  predicate IsDigit(c: char) {
    '0' <= c <= '9'
  }

  predicate IsHexDigit(c: char) {
    IsRadixDigit(c, 16)
  }

  predicate AllRadixDigits(s: string, radix: nat) {
    forall i :: 0 <= i < |s| ==> IsRadixDigit(s[i], radix)
  }

  /** The value of a string of radix digits, most significant first. */
  function RadixValue(s: string, radix: nat): nat
    requires AllRadixDigits(s, radix)
  {
    if s == [] then 0
    else RadixValue(s[..|s| - 1], radix) * radix + DigitValue(s[|s| - 1])
  }

  function DigitChar(d: nat): (c: char)
    requires d < 10
    ensures IsDigit(c) && DigitValue(c) == d
  {
    ('0' as int + d) as char
  }

  /** `${n}` for a non-negative integer `n`: its decimal digits, without leading zeros. */
  function NatToString(n: nat): (r: string)
    ensures |r| >= 1 && (|r| > 1 ==> r[0] != '0')
    ensures forall i :: 0 <= i < |r| ==> IsDigit(r[i])
    ensures AllRadixDigits(r, 10) && RadixValue(r, 10) == n
  {
    if n < 10 then [DigitChar(n)]
    else
      var front := NatToString(n / 10);
      var r := front + [DigitChar(n % 10)];
      assert r[..|r| - 1] == front;
      r
  }

  lemma NatToStringInjective(m: nat, n: nat)
    ensures NatToString(m) == NatToString(n) <==> m == n
  {
  }

  /** The characters JavaScript's `parseInt` skips before the number: WhiteSpace
      (TAB, VT, FF, ZWNBSP and every space separator) and LineTerminator. */
  predicate IsJsSpace(c: char) {
    c == '\t' || c == '\U{000B}' || c == '\U{000C}' || c == ' ' || c == '\U{00A0}' || c == '\U{FEFF}'
    || c == '\U{1680}' || ('\U{2000}' <= c <= '\U{200A}') || c == '\U{202F}' || c == '\U{205F}'
    || c == '\U{3000}' || c == '\n' || c == '\r' || c == '\U{2028}' || c == '\U{2029}'
  }

  /** A JavaScript number produced by `parseInt`: an integer or `NaN`. */
  datatype ParsedInt = Int(value: int) | NaN

  /** `parseInt(s)` with no radix: skip leading white space, take an optional sign, read
      hexadecimal digits after `0x`/`0X` and decimal digits otherwise, and give `NaN`
      when no digit follows. */
  function ParseInt(s: string): ParsedInt {
    var i := RunWhile(s, 0, IsJsSpace);
    var negative := i < |s| && s[i] == '-';
    var j := if i < |s| && (s[i] == '-' || s[i] == '+') then i + 1 else i;
    var hex := OccursAt(s, "0x", j) || OccursAt(s, "0X", j);
    var radix := if hex then 16 else 10;
    var start := if hex then j + 2 else j;
    var k := if hex then RunWhile(s, start, IsHexDigit) else RunWhile(s, start, IsDigit);
    if k == 0 then NaN
    else
      var magnitude: int := RadixValue(s[start..start + k], radix);
      Int(if negative then -magnitude else magnitude)
  }

  /** On a non-empty string of decimal digits `parseInt` gives exactly its decimal value. */
  lemma ParseIntOfDigits(s: string)
    requires s != [] && forall i :: 0 <= i < |s| ==> IsDigit(s[i])
    ensures AllRadixDigits(s, 10)
    ensures ParseInt(s) == Int(RadixValue(s, 10))
  {
    RunWhileExact(s, 0, 0, IsJsSpace);
    assert !OccursAt(s, "0x", 0) && !OccursAt(s, "0X", 0) by {
      if |s| >= 2 { assert IsDigit(s[1]); }
    }
    RunWhileExact(s, 0, |s|, IsDigit);
    assert s[0..|s|] == s;
  }

  /** `parseInt` reads back what `${n}` wrote. */
  lemma ParseIntOfNatToString(n: nat)
    ensures ParseInt(NatToString(n)) == Int(n)
  {
    ParseIntOfDigits(NatToString(n));
  }

  // ---------------------------------------------------------------------------
  // split('/').pop()
  // ---------------------------------------------------------------------------

  /** `s.split('/').pop()`: the text after the last `/`, or all of `s` when it has none. */
  function LastSegment(s: string): (r: string)
    ensures '/' !in r
    ensures |r| <= |s| && r == s[|s| - |r|..]
    ensures |r| < |s| ==> s[|s| - |r| - 1] == '/'
  {
    if s == [] then []
    else if s[|s| - 1] == '/' then []
    else LastSegment(s[..|s| - 1]) + [s[|s| - 1]]
  }

  lemma {:induction false} LastSegmentAfterSlash(p: string, q: string)
    requires '/' !in q
    ensures LastSegment(p + "/" + q) == q
    decreases |q|
  {
    var s := p + "/" + q;
    if q != [] {
      var q' := q[..|q| - 1];
      assert s[..|s| - 1] == p + "/" + q';
      LastSegmentAfterSlash(p, q');
      assert q == q' + [q[|q| - 1]];
    }
  }

  // ---------------------------------------------------------------------------
  // Array.prototype.find
  // ---------------------------------------------------------------------------

  /** The index of the first element satisfying `p`, as `find`/`findIndex` scan. */
  function FindIndex<T>(xs: seq<T>, p: T -> bool): (r: Option<nat>)
    ensures r.Some? ==> r.value < |xs| && p(xs[r.value]) && forall i :: 0 <= i < r.value ==> !p(xs[i])
    ensures r.None? ==> forall i :: 0 <= i < |xs| ==> !p(xs[i])
  {
    if xs == [] then None
    else if p(xs[0]) then Some(0)
    else match FindIndex(xs[1..], p)
      case None => None
      case Some(k) => Some(k + 1)
  }

  /** `xs.find(p)`, with `undefined` as `None`. */
  function Find<T>(xs: seq<T>, p: T -> bool): (r: Option<T>)
    ensures r.Some? <==> exists i :: 0 <= i < |xs| && p(xs[i])
    ensures r.Some? ==> exists i :: 0 <= i < |xs| && xs[i] == r.value && p(xs[i])
                                     && forall j :: 0 <= j < i ==> !p(xs[j])
  {
    match FindIndex(xs, p)
    case None => None
    case Some(k) => Some(xs[k])
  }
}
