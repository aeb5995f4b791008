/**
 * The pieces of Go's `strings` and `strconv` packages that the modelled code relies on:
 * Index/Split/Join on a one-character separator, Contains, and decimal formatting and parsing.
 */
module Strs {
  import opened Wrappers

  /** strings.IndexByte: the first position of `c` in `s`. */
  function IndexOf(s: string, c: char): (i: nat)
    requires c in s
    ensures i < |s| && s[i] == c && c !in s[..i]
  {
    if s[0] == c then 0
    else
      var j := IndexOf(s[1..], c);
      assert s[..j + 1] == [s[0]] + s[1..][..j];
      j + 1
  }

  /** strings.Split(s, string(c)): the pieces between occurrences of `c`, at least one. */
  function Split(s: string, c: char): (parts: seq<string>)
    ensures |parts| >= 1
    ensures forall k :: 0 <= k < |parts| ==> c !in parts[k]
    decreases |s|
  {
    if c !in s then [s]
    else
      var i := IndexOf(s, c);
      [s[..i]] + Split(s[i + 1..], c)
  }

  /** strings.Join(parts, string(c)). */
  function Join(parts: seq<string>, c: char): string
    decreases |parts|
  {
    if |parts| == 0 then ""
    else if |parts| == 1 then parts[0]
    else parts[0] + [c] + Join(parts[1..], c)
  }

  /** Splitting and joining again on the same separator gives back the string. */
  lemma {:induction false} JoinSplit(s: string, c: char)
    ensures Join(Split(s, c), c) == s
    decreases |s|
  {
    if c in s {
      var i := IndexOf(s, c);
      JoinSplit(s[i + 1..], c);
      assert Split(s, c)[1..] == Split(s[i + 1..], c);
      assert s == s[..i] + [c] + s[i + 1..];
    }
  }

  /** Joining pieces that do not contain the separator and splitting again gives back the pieces. */
  lemma {:induction false} SplitJoin(parts: seq<string>, c: char)
    requires |parts| >= 1
    requires forall k :: 0 <= k < |parts| ==> c !in parts[k]
    ensures Split(Join(parts, c), c) == parts
    decreases |parts|
  {
    if |parts| > 1 {
      var s := Join(parts, c);
      var p := parts[0];
      var rest := Join(parts[1..], c);
      assert s == p + [c] + rest;
      AroundElement(p, c, rest);
      IndexOfUnique(s, c, |p|);
      SplitJoin(parts[1..], c);
    }
  }

  /** The first occurrence is the one with no earlier occurrence. */
  lemma {:induction false} IndexOfUnique(s: string, c: char, j: nat)
    requires j < |s| && s[j] == c && c !in s[..j]
    ensures IndexOf(s, c) == j
    decreases j
  {
    if j > 0 {
      assert s[..j][0] == s[0];
      assert s[1..][..j - 1] == s[..j][1..];
      IndexOfUnique(s[1..], c, j - 1);
    }
  }

  /** The first segment of a split and the join of the others, as positions around the first separator. */
  lemma {:induction false} SplitHeadTail(s: string, c: char)
    requires c in s
    ensures Split(s, c)[0] == s[..IndexOf(s, c)]
    ensures Join(Split(s, c)[1..], c) == s[IndexOf(s, c) + 1..]
  {
    var i := IndexOf(s, c);
    assert Split(s, c)[1..] == Split(s[i + 1..], c);
    JoinSplit(s[i + 1..], c);
  }

  /**
   * The second piece of a split on a string holding the separator: the text after the first
   * separator up to the next one, or to the end.
   */
  lemma SplitSecond(s: string, c: char)
    requires c in s
    ensures |Split(s, c)| >= 2
    ensures var i := IndexOf(s, c); var j := i + 1 + |Split(s, c)[1]|;
      j <= |s| && Split(s, c)[1] == s[i + 1..j] && (j < |s| ==> s[j] == c)
  {
    var i := IndexOf(s, c);
    var rest := s[i + 1..];
    assert Split(s, c) == [s[..i]] + Split(rest, c);
    var second := Split(rest, c)[0];
    if c in rest {
      SplitHeadTail(rest, c);
      SliceOfSuffix(s, i + 1, IndexOf(rest, c));
    } else {
      assert second == rest;
    }
  }

  /** The pieces of `a + [x] + b` around `x`. */
  lemma AroundElement<T>(a: seq<T>, x: T, b: seq<T>)
    ensures (a + [x] + b)[|a|] == x && (a + [x] + b)[..|a|] == a && (a + [x] + b)[|a| + 1..] == b
  {
  }

  /** A prefix of a suffix is a slice of the whole, and so are its elements. */
  lemma SliceOfSuffix<T>(s: seq<T>, i: nat, k: nat)
    requires i + k <= |s|
    ensures s[i..][..k] == s[i..i + k]
    ensures i + k < |s| ==> s[i..][k] == s[i + k]
  {
  }

  /** A prefix cut at `j` is the part before `i`, the element at `i`, and the part between. */
  lemma SliceAround<T>(s: seq<T>, i: nat, j: nat)
    requires i < j <= |s|
    ensures s[..i] + [s[i]] + s[i + 1..j] == s[..j]
  {
  }

  /** strings.HasPrefix. */
  predicate HasPrefix(s: string, prefix: string) {
    |prefix| <= |s| && s[..|prefix|] == prefix
  }

  /** strings.Contains: whether `sub` occurs in `s` (the empty string occurs everywhere). */
  predicate Contains(s: string, sub: string)
    decreases |s|
  {
    HasPrefix(s, sub) || (|s| > 0 && Contains(s[1..], sub))
  }

  /** `sub` occurs in `s` starting at position `i`. */
  predicate OccursAt(s: string, sub: string, i: int) {
    0 <= i <= |s| - |sub| && s[i..i + |sub|] == sub
  }

  /** Contains agrees with the definition by an occurrence position. */
  lemma {:induction false} ContainsIff(s: string, sub: string)
    ensures Contains(s, sub) <==> exists i :: OccursAt(s, sub, i)
    decreases |s|
  {
    if HasPrefix(s, sub) {
      assert OccursAt(s, sub, 0);
    } else if |s| == 0 {
      assert forall i :: !OccursAt(s, sub, i);
    } else {
      ContainsIff(s[1..], sub);
      if Contains(s[1..], sub) {
        var i :| OccursAt(s[1..], sub, i);
        OccursShift(s, sub, i + 1);
      } else {
        forall i | OccursAt(s, sub, i)
          ensures false
        {
          if i > 0 {
            OccursShift(s, sub, i);
          }
        }
      }
    }
  }

  /** An occurrence after the first position is an occurrence in the tail. */
  lemma OccursShift(s: string, sub: string, i: int)
    requires |s| > 0 && i >= 1
    ensures OccursAt(s, sub, i) <==> OccursAt(s[1..], sub, i - 1)
  {
    if i <= |s| - |sub| {
      assert s[i..i + |sub|] == s[1..][i - 1..i - 1 + |sub|];
    }
  }

  predicate IsDigit(c: char) {
    '0' <= c <= '9'
  }

  predicate AllDigits(s: string) {
    forall k :: 0 <= k < |s| ==> IsDigit(s[k])
  }

  function DigitChar(d: nat): (c: char)
    requires d < 10
    ensures IsDigit(c) && (c as int) - ('0' as int) == d
  {
    ('0' as int + d) as char
  }

  /** fmt's %d (strconv.Itoa) of a natural number. */
  function NatToString(n: nat): (s: string)
    ensures |s| >= 1 && AllDigits(s)
    decreases n
  {
    if n < 10 then [DigitChar(n)] else NatToString(n / 10) + [DigitChar(n % 10)]
  }

  /** strconv.Itoa of an integer: a minus sign, then the digits of its magnitude. */
  function IntToString(n: int): string {
    if n < 0 then "-" + NatToString(-n) else NatToString(n)
  }

  /** The value of a string of decimal digits, most significant first. */
  function DigitsValue(s: string): nat
    requires AllDigits(s)
    decreases |s|
  {
    if |s| == 0 then 0
    else DigitsValue(s[..|s| - 1]) * 10 + ((s[|s| - 1] as int) - ('0' as int))
  }

  lemma {:induction false} DigitsRoundTrip(n: nat)
    ensures DigitsValue(NatToString(n)) == n
    decreases n
  {
    if n >= 10 {
      var s := NatToString(n);
      assert s[..|s| - 1] == NatToString(n / 10);
      DigitsRoundTrip(n / 10);
    }
  }

  /**
   * The syntax strconv.ParseInt(s, 10, _) accepts: an optional '+' or '-', then at least one
   * decimal digit and nothing else. The result is not yet range-checked.
   */
  function ParseDecimal(s: string): Option<int> {
    if |s| == 0 then None
    else if s[0] == '+' || s[0] == '-' then
      var digits := s[1..];
      if |digits| == 0 || !AllDigits(digits) then None
      else if s[0] == '-' then Some(-(DigitsValue(digits) as int))
      else Some(DigitsValue(digits))
    else if AllDigits(s) then Some(DigitsValue(s))
    else None
  }

  /** Formatting an integer and parsing it back gives the integer. */
  lemma ParseFormatRoundTrip(n: int)
    ensures ParseDecimal(IntToString(n)) == Some(n)
  {
    if n < 0 {
      ParseNegative(-n);
    } else {
      ParseNatural(n);
    }
  }

  /** The digits of a natural number parse back to it: they start with no sign. */
  lemma ParseNatural(n: nat)
    ensures ParseDecimal(NatToString(n)) == Some(n)
  {
    var t := NatToString(n);
    assert t[0] != '+' && t[0] != '-' by {
      assert IsDigit(t[0]);
    }
    DigitsRoundTrip(n);
  }

  /** A minus sign before the digits of a positive number parses back to its negation. */
  lemma ParseNegative(m: nat)
    requires m > 0
    ensures ParseDecimal("-" + NatToString(m)) == Some(-(m as int))
  {
    var t := NatToString(m);
    var s := "-" + t;
    assert s[0] == '-' && s[1..] == t;
    DigitsRoundTrip(m);
  }

  /** A parsed decimal is the text of nothing but digits after an optional sign. */
  lemma ParseDecimalSyntax(s: string)
    ensures ParseDecimal(s).Some? <==>
      (|s| >= 1 && AllDigits(s)) ||
      (|s| >= 2 && (s[0] == '+' || s[0] == '-') && AllDigits(s[1..]))
  {
  }
}
