/**
 * The two pieces of Python string handling the handlers rely on: splitting a
 * string on a one-character separator (`str.split`) with its inverse, the
 * separator join that builds composite keys, and reading a decimal integer
 * (`int(...)` on a digit string).
 */
module Strings {
  import opened Wrappers

  /** `s.split(sep)`: the maximal separator-free pieces between separators.
      There is always at least one piece, and pieces may be empty. */
  function Split(s: string, sep: char): (parts: seq<string>)
    ensures |parts| >= 1
  {
    if s == [] then [[]]
    else
      var rest := Split(s[1..], sep);
      if s[0] == sep then [[]] + rest
      else [[s[0]] + rest[0]] + rest[1..]
  }

  /** `sep.join(parts)` for a non-empty list of parts. */
  function Join(parts: seq<string>, sep: char): string
    requires |parts| >= 1
  {
    if |parts| == 1 then parts[0] else parts[0] + [sep] + Join(parts[1..], sep)
  }

  lemma {:induction false} SplitWithoutSeparator(s: string, sep: char)
    requires sep !in s
    ensures Split(s, sep) == [s]
  {
    if s != [] {
      SplitWithoutSeparator(s[1..], sep);
      assert [s[0]] + s[1..] == s;
    }
  }

  /** Splitting at the first separator peels off the separator-free head. */
  lemma {:induction false} SplitAtFirst(a: string, b: string, sep: char)
    requires sep !in a
    ensures Split(a + [sep] + b, sep) == [a] + Split(b, sep)
  {
    var s := a + [sep] + b;
    if a == [] {
      assert s[1..] == b;
    } else {
      assert s[1..] == a[1..] + [sep] + b;
      SplitAtFirst(a[1..], b, sep);
      assert [a[0]] + a[1..] == a;
    }
  }

  /** Splitting a join of separator-free parts gives the parts back. */
  lemma {:induction false} SplitJoin(parts: seq<string>, sep: char)
    requires |parts| >= 1
    requires forall i :: 0 <= i < |parts| ==> sep !in parts[i]
    ensures Split(Join(parts, sep), sep) == parts
  {
    if |parts| == 1 {
      SplitWithoutSeparator(parts[0], sep);
    } else {
      SplitJoin(parts[1..], sep);
      SplitAtFirst(parts[0], Join(parts[1..], sep), sep);
      assert [parts[0]] + parts[1..] == parts;
    }
  }

  /** Joining the pieces of a split gives the string back. */
  lemma {:induction false} JoinSplit(s: string, sep: char)
    ensures Join(Split(s, sep), sep) == s
  {
    if s != [] {
      var rest := Split(s[1..], sep);
      JoinSplit(s[1..], sep);
      if s[0] == sep {
        assert ([[]] + rest)[1..] == rest;
        assert s == [sep] + s[1..];
      } else if |rest| == 1 {
        assert s == [s[0]] + s[1..];
      } else {
        var parts := [[s[0]] + rest[0]] + rest[1..];
        assert parts[1..] == rest[1..];
        assert Join(rest, sep) == rest[0] + [sep] + Join(rest[1..], sep);
        assert s == [s[0]] + s[1..];
      }
    }
  }

  predicate IsDigit(c: char)
  {
    '0' <= c <= '9'
  }

  function DigitValue(c: char): nat
    requires IsDigit(c)
  {
    (c as int) - ('0' as int)
  }

  function DigitChar(d: nat): (c: char)
    requires d < 10
    ensures IsDigit(c) && DigitValue(c) == d
  {
    (('0' as int) + d) as char
  }

  /** The value of the decimal digits `s[lo..hi]`, most significant first,
      or `None` when one of them is not a digit. */
  function DigitsValue(s: string, lo: nat, hi: nat): Option<nat>
    requires lo <= hi <= |s|
    decreases hi - lo
  {
    if hi == lo then Some(0)
    else if !IsDigit(s[hi - 1]) then None
    else
      match DigitsValue(s, lo, hi - 1)
      case None => None
      case Some(v) => Some(v * 10 + DigitValue(s[hi - 1]))
  }

  /** Where the digits start: after a leading sign, if there is one. */
  function DigitsStart(s: string): nat
  {
    if |s| >= 1 && (s[0] == '-' || s[0] == '+') then 1 else 0
  }

  /** `int(s)` for an optional sign followed by at least one ASCII digit;
      anything else raises, which is `None` here. */
  function ParseInteger(s: string): Option<int>
  {
    var lo := DigitsStart(s);
    if |s| <= lo then None
    else
      match DigitsValue(s, lo, |s|)
      case None => None
      case Some(v) => Some(if s[0] == '-' then -(v as int) else v)
  }

  /** A digit range has a value exactly when every character in it is a digit. */
  lemma {:induction false} DigitsValueDefined(s: string, lo: nat, hi: nat)
    requires lo <= hi <= |s|
    ensures DigitsValue(s, lo, hi).Some? <==> forall i :: lo <= i < hi ==> IsDigit(s[i])
    decreases hi - lo
  {
    if hi > lo {
      DigitsValueDefined(s, lo, hi - 1);
    }
  }

  /** The strings `int` accepts: an optional sign, then one or more digits. */
  predicate IsIntegerLiteral(s: string)
  {
    && |s| > DigitsStart(s)
    && forall i :: DigitsStart(s) <= i < |s| ==> IsDigit(s[i])
  }

  lemma ParseIntegerDefined(s: string)
    ensures ParseInteger(s).Some? <==> IsIntegerLiteral(s)
  {
    if |s| > DigitsStart(s) {
      DigitsValueDefined(s, DigitsStart(s), |s|);
    }
  }

  /** The value of a digit range depends only on the characters in it. */
  lemma {:induction false} DigitsValueLocal(s: string, u: string, lo: nat, hi: nat)
    requires lo <= hi <= |s| && hi <= |u|
    requires forall i :: lo <= i < hi ==> s[i] == u[i]
    ensures DigitsValue(s, lo, hi) == DigitsValue(u, lo, hi)
    decreases hi - lo
  {
    if hi > lo {
      DigitsValueLocal(s, u, lo, hi - 1);
    }
  }

  /** `str(n)` for a natural number. */
  function Decimal(n: nat): (s: string)
    ensures |s| >= 1 && forall i :: 0 <= i < |s| ==> IsDigit(s[i])
  {
    if n < 10 then [DigitChar(n)] else Decimal(n / 10) + [DigitChar(n % 10)]
  }

  lemma {:induction false} DigitsValueOfDecimal(n: nat)
    ensures DigitsValue(Decimal(n), 0, |Decimal(n)|) == Some(n)
  {
    if n >= 10 {
      var s := Decimal(n);
      var init := Decimal(n / 10);
      DigitsValueOfDecimal(n / 10);
      DigitsValueLocal(s, init, 0, |init|);
    }
  }

  /** `int(str(n)) == n`: a published decimal token reads back as its value. */
  lemma ParseDecimal(n: nat)
    ensures ParseInteger(Decimal(n)) == Some(n)
  {
    DigitsValueOfDecimal(n);
    assert IsDigit(Decimal(n)[0]);
  }
}
