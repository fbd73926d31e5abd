/**
 * The string and array primitives the screen is built from:
 * `Array.prototype.join`, `String.prototype.split('')`, `Array.prototype.slice`,
 * and lodash's `capitalize`, the last one over ASCII letters only.
 */
module JsText {

  function Min(a: int, b: int): int { if a <= b then a else b }

  /** `parts.join(sep)`: the parts with `sep` between each adjacent pair; `""` for no parts. */
  function Join(parts: seq<string>, sep: string): string
  {
    if |parts| == 0 then ""
    else if |parts| == 1 then parts[0]
    else parts[0] + sep + Join(parts[1..], sep)
  }

  /** `s.split('')`: one single-character string per character. */
  function Chars(s: string): (r: seq<string>)
    ensures |r| == |s|
    ensures forall i :: 0 <= i < |s| ==> r[i] == [s[i]]
  {
    seq(|s|, i requires 0 <= i < |s| => [s[i]])
  }

  /** `xs.slice(start, end)` for non-negative bounds: both ends are clamped to the length. */
  function Slice<T>(xs: seq<T>, start: nat, end: nat): (r: seq<T>)
    ensures |r| <= |xs|
    ensures start <= end ==> |r| <= end - start
  {
    var lo := Min(start, |xs|);
    var hi := Min(end, |xs|);
    if lo < hi then xs[lo..hi] else []
  }

  /** One step of `join`: the first part, a separator, then the rest joined. */
  lemma JoinStep(parts: seq<string>, sep: string)
    requires |parts| > 1
    ensures Join(parts, sep) == parts[0] + sep + Join(parts[1..], sep)
  {
  }

  /** Joining with the empty separator lays the parts end to end. */
  lemma {:induction false} JoinEmptySeparator(parts: seq<string>)
    requires |parts| > 0
    ensures Join(parts, "") == parts[0] + Join(parts[1..], "")
  {
    if |parts| == 1 {
      assert parts[1..] == [];
    }
  }

  /** Each separator adds its length once between adjacent parts. */
  lemma {:induction false} JoinLength(parts: seq<string>, sep: string)
    requires |parts| > 0
    ensures |Join(parts, sep)| == |Join(parts, "")| + (|parts| - 1) * |sep|
  {
    if |parts| > 1 {
      JoinLength(parts[1..], sep);
      JoinEmptySeparator(parts);
    }
  }

  /** `s.split('').join('') === s`. */
  lemma {:induction false} JoinChars(s: string)
    ensures Join(Chars(s), "") == s
  {
    if |s| > 0 {
      assert Chars(s)[1..] == Chars(s[1..]);
      JoinChars(s[1..]);
      JoinEmptySeparator(Chars(s));
      assert s == [s[0]] + s[1..];
    }
  }

  /** Slicing the characters and joining them back is slicing the string. */
  lemma SliceChars(s: string, start: nat, end: nat)
    requires start <= end
    ensures Join(Slice(Chars(s), start, end), "") == s[Min(start, |s|)..Min(end, |s|)]
  {
    var lo, hi := Min(start, |s|), Min(end, |s|);
    if lo < hi {
      assert Chars(s)[lo..hi] == Chars(s[lo..hi]);
    } else {
      assert Chars(s[lo..hi]) == [];
    }
    JoinChars(s[lo..hi]);
  }

  /** Number of occurrences of `c` in `s`. */
  function Count(s: string, c: char): nat
  {
    if |s| == 0 then 0 else (if s[0] == c then 1 else 0) + Count(s[1..], c)
  }

  lemma {:induction false} CountAppend(a: string, b: string, c: char)
    ensures Count(a + b, c) == Count(a, c) + Count(b, c)
  {
    if |a| > 0 {
      assert (a + b)[1..] == a[1..] + b;
      CountAppend(a[1..], b, c);
    } else {
      assert a + b == b;
    }
  }

  /** Joining n parts with a one-character separator adds exactly n - 1 of that character. */
  lemma {:induction false} JoinCount(parts: seq<string>, c: char)
    requires |parts| > 0
    ensures Count(Join(parts, [c]), c) == Count(Join(parts, ""), c) + |parts| - 1
  {
    if |parts| > 1 {
      JoinCount(parts[1..], c);
      JoinEmptySeparator(parts);
      CountAppend(parts[0] + [c], Join(parts[1..], [c]), c);
      CountAppend(parts[0], [c], c);
      CountAppend(parts[0], Join(parts[1..], ""), c);
      assert Count([c], c) == 1 by { assert [c][1..] == []; }
    }
  }

  /** Lower-cases an ASCII capital; every other character is kept. */
  function LowerChar(ch: char): char
  {
    if 'A' <= ch <= 'Z' then (ch as int + 32) as char else ch
  }

  /** Upper-cases an ASCII small letter; every other character is kept. */
  function UpperChar(ch: char): char
  {
    if 'a' <= ch <= 'z' then (ch as int - 32) as char else ch
  }

  predicate IsAsciiLower(ch: char) { 'a' <= ch <= 'z' }
  predicate IsAsciiUpper(ch: char) { 'A' <= ch <= 'Z' }

  /** `s.toLowerCase()` over ASCII. */
  function ToLower(s: string): string
  {
    seq(|s|, i requires 0 <= i < |s| => LowerChar(s[i]))
  }

  /** lodash `upperFirst(s)` over ASCII. */
  function UpperFirst(s: string): string
  {
    if |s| == 0 then s else [UpperChar(s[0])] + s[1..]
  }

  /**
   * lodash `capitalize(s)`, which is `upperFirst(toLower(s))`: the length is kept, the
   * first character is upper-cased, every other character is lower-cased, and
   * characters that are not ASCII letters are left alone.
   */
  function Capitalize(s: string): (r: string)
    ensures |r| == |s|
    ensures |s| > 0 ==> r[0] == UpperChar(LowerChar(s[0])) && !IsAsciiLower(r[0])
    ensures forall i :: 0 < i < |s| ==> r[i] == LowerChar(s[i]) && !IsAsciiUpper(r[i])
    ensures forall i :: 0 <= i < |s| && !IsAsciiLower(s[i]) && !IsAsciiUpper(s[i]) ==> r[i] == s[i]
  {
    UpperFirst(ToLower(s))
  }
}
