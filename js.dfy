/** The JavaScript built-ins whose exact behaviour the catalog code relies
    on, written out: `Array.prototype.slice(0, end)`, the index-filter idiom
    `a.filter((_, i) => i !== index)`, `String.prototype.trim`,
    `s.split(sep).pop()` and the rendering of a non-negative integer
    Number as a decimal string. */
module Js {

  /** `s.slice(0, end)`: a negative `end` counts back from the end of `s`,
      and an `end` past the end is clamped to `|s|`. */
  function SliceTo<T>(s: seq<T>, end: int): (r: seq<T>)
    ensures |r| <= |s| && r == s[..|r|]
    ensures 0 <= end ==> |r| == if end <= |s| then end else |s|
    ensures end < 0 ==> |r| == if |s| + end >= 0 then |s| + end else 0
  {
    var stop := if end < 0 then (if |s| + end >= 0 then |s| + end else 0)
                else if end <= |s| then end else |s|;
    s[..stop]
  }

  /** `s.filter((_, i) => i !== index)` on the suffix of a list whose first
      element sits at position `pos`. */
  function DropPosition<T>(s: seq<T>, index: int, pos: int): (r: seq<T>)
    ensures pos <= index < pos + |s| ==> r == s[..index - pos] + s[index - pos + 1..]
    ensures !(pos <= index < pos + |s|) ==> r == s
    decreases |s|
  {
    if s == [] then []
    else (if pos == index then [] else [s[0]]) + DropPosition(s[1..], index, pos + 1)
  }

  /** `s.filter((_, i) => i !== index)`: the element at `index` is dropped and
      the others keep their order; an index outside the list drops nothing. */
  function WithoutIndex<T>(s: seq<T>, index: int): (r: seq<T>)
    ensures 0 <= index < |s| ==> |r| == |s| - 1 && r == s[..index] + s[index + 1..]
    ensures !(0 <= index < |s|) ==> r == s
  {
    DropPosition(s, index, 0)
  }

  /** ECMAScript WhiteSpace and LineTerminator code points, the characters
      `String.prototype.trim` removes. */
  predicate IsSpace(c: char) {
    var n := c as int;
    n == 0x09 || n == 0x0A || n == 0x0B || n == 0x0C || n == 0x0D || n == 0x20
    || n == 0xA0 || n == 0x1680 || (0x2000 <= n <= 0x200A) || n == 0x2028
    || n == 0x2029 || n == 0x202F || n == 0x205F || n == 0x3000 || n == 0xFEFF
  }

  /** `s.trimStart()`: the suffix of `s` after its leading white space. */
  function TrimStart(s: string): (r: string)
    ensures |r| <= |s| && r == s[|s| - |r|..]
    ensures forall i :: 0 <= i < |s| - |r| ==> IsSpace(s[i])
    ensures r == [] || !IsSpace(r[0])
  {
    if s != [] && IsSpace(s[0]) then TrimStart(s[1..]) else s
  }

  /** `s.trimEnd()`: the prefix of `s` before its trailing white space. */
  function TrimEnd(s: string): (r: string)
    ensures |r| <= |s| && r == s[..|r|]
    ensures forall i :: |r| <= i < |s| ==> IsSpace(s[i])
    ensures r == [] || !IsSpace(r[|r| - 1])
  {
    if s != [] && IsSpace(s[|s| - 1]) then TrimEnd(s[..|s| - 1]) else s
  }

  /** `r` is the slice of `s` at offset `i` with only white space before
      and after it. */
  predicate SlicedFrom(s: string, i: int, r: string) {
    && 0 <= i <= |s| - |r| && r == s[i..i + |r|]
    && (forall k :: 0 <= k < i ==> IsSpace(s[k]))
    && (forall k :: i + |r| <= k < |s| ==> IsSpace(s[k]))
  }

  /** `s.trim()`: the slice of `s` between its leading and its trailing
      white space; it is empty exactly when `s` is all white space, and
      otherwise starts and ends with a non-space. */
  function Trim(s: string): (r: string)
    ensures |r| <= |s|
    ensures exists i :: SlicedFrom(s, i, r)
    ensures r == [] <==> forall i :: 0 <= i < |s| ==> IsSpace(s[i])
    ensures r != [] ==> !IsSpace(r[0]) && !IsSpace(r[|r| - 1])
    ensures forall c :: c in r ==> c in s
  {
    var t := TrimStart(s);
    var r := TrimEnd(t);
    PrefixOfSuffix(s, t, r);
    TrimEmpty(s);
    TrimSlice(s, t, r);
    r
  }

  /** A prefix `r` of a suffix `t` of `s` is a slice of `s`, made of
      characters of `s`. */
  lemma PrefixOfSuffix(s: string, t: string, r: string)
    requires |t| <= |s| && t == s[|s| - |t|..]
    requires |r| <= |t| && r == t[..|r|]
    ensures var off := |s| - |t|;
      off + |r| <= |s| && r == s[off..off + |r|]
    ensures forall c :: c in r ==> c in s
  {
    var off := |s| - |t|;
    forall c | c in r ensures c in s {
      var k :| 0 <= k < |r| && r[k] == c;
      assert s[off + k] == c;
    }
  }

  /** When only white space precedes the suffix `t` of `s` and only white
      space follows the prefix `r` of `t`, `r` is the slice of `s` between
      white space on both sides. */
  lemma TrimSlice(s: string, t: string, r: string)
    requires |t| <= |s| && t == s[|s| - |t|..]
    requires |r| <= |t| && r == t[..|r|]
    requires forall k :: 0 <= k < |s| - |t| ==> IsSpace(s[k])
    requires forall k :: |r| <= k < |t| ==> IsSpace(t[k])
    ensures exists i :: SlicedFrom(s, i, r)
  {
    var i := |s| - |t|;
    PrefixOfSuffix(s, t, r);
    forall k | i + |r| <= k < |s| ensures IsSpace(s[k]) {
      assert s[k] == t[k - i];
    }
    assert SlicedFrom(s, i, r);
  }

  /** Trimming leaves nothing exactly when `s` is all white space. */
  lemma TrimEmpty(s: string)
    ensures TrimEnd(TrimStart(s)) == [] <==> forall i :: 0 <= i < |s| ==> IsSpace(s[i])
  {
    var t := TrimStart(s);
    var r := TrimEnd(t);
    if r == [] {
      assert t == [];
    } else {
      PrefixOfSuffix(s, t, r);
      assert r[0] == s[|s| - |t|];
    }
  }

  /** `s.split(sep).pop()`: the text after the last `sep`, or the whole of
      `s` when it has no `sep`. */
  function AfterLast(s: string, sep: char): (tail: string)
    ensures |tail| <= |s| && tail == s[|s| - |tail|..]
    ensures sep !in tail
    ensures tail == s || s[|s| - |tail| - 1] == sep
  {
    if s == [] then []
    else if s[|s| - 1] == sep then []
    else AfterLast(s[..|s| - 1], sep) + [s[|s| - 1]]
  }

  /** Whatever precedes the last separator, the text after it is found
      again: splitting `prefix + sep + tail` yields `tail`. */
  lemma {:induction false} AfterLastJoined(prefix: string, sep: char, tail: string)
    requires sep !in tail
    ensures AfterLast(prefix + [sep] + tail, sep) == tail
    decreases |tail|
  {
    var s := prefix + [sep] + tail;
    if tail != [] {
      var init := tail[..|tail| - 1];
      assert s[..|s| - 1] == prefix + [sep] + init;
      assert s[|s| - 1] == tail[|tail| - 1] && s[|s| - 1] in tail;
      AfterLastJoined(prefix, sep, init);
      assert init + [tail[|tail| - 1]] == tail;
    }
  }

  /** Every character of `s` is a decimal digit. */
  predicate AllDigits(s: string) {
    forall i :: 0 <= i < |s| ==> '0' <= s[i] <= '9'
  }

  /** The decimal digit for `d`. */
  function Digit(d: nat): (c: char)
    requires d < 10
    ensures '0' <= c <= '9'
  {
    ['0', '1', '2', '3', '4', '5', '6', '7', '8', '9'][d]
  }

  /** The value of a decimal digit character. */
  function DigitValue(c: char): (d: nat)
    requires '0' <= c <= '9'
    ensures d < 10 && Digit(d) == c
  {
    (c as int) - ('0' as int)
  }

  /** `String(n)` for a non-negative integer Number below 10^21, where
      JavaScript prints plain decimal digits. */
  function DecimalString(n: nat): (s: string)
    ensures |s| >= 1
    ensures AllDigits(s)
    ensures s[0] == '0' ==> n == 0 && s == "0"
    decreases n
  {
    if n < 10 then [Digit(n)] else DecimalString(n / 10) + [Digit(n % 10)]
  }

  /** The number a non-empty string of decimal digits denotes. */
  function DecimalValue(s: string): nat
    requires AllDigits(s)
  {
    if s == [] then 0
    else DecimalValue(s[..|s| - 1]) * 10 + DigitValue(s[|s| - 1])
  }

  /** Printing a number and reading it back gives the number. */
  lemma {:induction false} DecimalRoundTrip(n: nat)
    ensures DecimalValue(DecimalString(n)) == n
    decreases n
  {
    var s := DecimalString(n);
    if n < 10 {
      assert s[..0] == [];
    } else {
      DecimalRoundTrip(n / 10);
      assert s[..|s| - 1] == DecimalString(n / 10);
    }
  }

  /** Distinct numbers print differently. */
  lemma DecimalStringInjective(m: nat, n: nat)
    requires DecimalString(m) == DecimalString(n)
    ensures m == n
  {
    DecimalRoundTrip(m);
    DecimalRoundTrip(n);
  }
}
