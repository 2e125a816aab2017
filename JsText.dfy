/** The parts of JavaScript's string semantics that the form relies on:
    the `\d` character class (ASCII digits, no `u` flag), the decimal value
    of a digit string, and the relational operator `<` on strings, which
    compares code units lexicographically. */
module JsText {

  /** `\d` without the `u` flag: exactly the ASCII digits. */
  predicate IsDigit(c: char) {
    '0' <= c <= '9'
  }

  predicate AllDigits(s: string) {
    forall i :: 0 <= i < |s| ==> IsDigit(s[i])
  }

  function DigitValue(c: char): (d: nat)
    requires IsDigit(c)
    ensures d < 10
  {
    c as int - '0' as int
  }

  function DigitChar(d: nat): (c: char)
    requires d < 10
    ensures IsDigit(c) && DigitValue(c) == d
  {
    ('0' as int + d) as char
  }

  function Pow10(n: nat): (p: nat)
    ensures p >= 1
  {
    if n == 0 then 1 else 10 * Pow10(n - 1)
  }

  /** The number a digit string denotes, read most significant digit first. */
  function DigitsValue(s: string): (v: nat)
    requires AllDigits(s)
  {
    if s == [] then 0 else 10 * DigitsValue(s[..|s| - 1]) + DigitValue(s[|s| - 1])
  }

  lemma {:induction false} DigitsValueBound(s: string)
    requires AllDigits(s)
    ensures DigitsValue(s) < Pow10(|s|)
  {
    if s != [] {
      DigitsValueBound(s[..|s| - 1]);
    }
  }

  /** Reading the concatenation of two digit strings shifts the first by the
      length of the second. */
  lemma {:induction false} DigitsValueAppend(a: string, b: string)
    requires AllDigits(a) && AllDigits(b)
    ensures AllDigits(a + b)
    ensures DigitsValue(a + b) == DigitsValue(a) * Pow10(|b|) + DigitsValue(b)
  {
    if b != [] {
      var b', d := b[..|b| - 1], DigitValue(b[|b| - 1]);
      assert AllDigits(b');
      assert (a + b)[..|a + b| - 1] == a + b';
      assert (a + b)[|a + b| - 1] == b[|b| - 1];
      DigitsValueAppend(a, b');
      assert Pow10(|b|) == 10 * Pow10(|b'|);
      ShiftByOneDigit(DigitsValue(a), Pow10(|b'|), DigitsValue(b'), d);
    } else {
      assert a + b == a;
    }
  }

  lemma ShiftByOneDigit(va: nat, p: nat, vb: nat, d: nat)
    ensures 10 * (va * p + vb) + d == va * (10 * p) + (10 * vb + d)
  {
  }

  /** The leading digit of a non-empty digit string carries the highest weight. */
  lemma DigitsValueFront(s: string)
    requires AllDigits(s) && s != []
    ensures DigitsValue(s) == DigitValue(s[0]) * Pow10(|s| - 1) + DigitsValue(s[1..])
  {
    var head, tail := [s[0]], s[1..];
    assert head + tail == s;
    assert head[..0] == [] && head[0] == s[0];
    assert DigitsValue(head) == DigitValue(s[0]);
    DigitsValueAppend(head, tail);
  }

  /** The shortest decimal numeral for n (no leading zeros, "0" for zero). */
  function NatToDigits(n: nat): (s: string)
    ensures s != [] && AllDigits(s) && DigitsValue(s) == n
  {
    if n < 10 then [DigitChar(n)]
    else
      var s := NatToDigits(n / 10) + [DigitChar(n % 10)];
      assert s[..|s| - 1] == NatToDigits(n / 10);
      s
  }

  /** JavaScript's `a < b` on strings: compare element by element; at the
      first difference the smaller element wins. A proper prefix is below
      the longer string, and no string is below one of its own prefixes. */
  function LexLess(a: string, b: string): (r: bool)
    ensures a < b ==> r
    ensures b <= a ==> !r
  {
    if b == [] then false
    else if a == [] then true
    else if a[0] != b[0] then a[0] < b[0]
    else
      assert a < b ==> a[1..] < b[1..];
      assert b <= a ==> b[1..] <= a[1..];
      LexLess(a[1..], b[1..])
  }

  /** LexLess is the comparison as the ECMAScript standard words it
      (IsLessThan on strings, section 7.2.13 of ECMA-262): true when `a` is a
      proper prefix of `b`, or when at the first index where they differ the
      element of `a` is the smaller. */
  lemma {:induction false} LexLessIsStringComparison(a: string, b: string)
    ensures LexLess(a, b) <==>
      a < b || exists k :: 0 <= k < |a| && k < |b| && a[..k] == b[..k] && a[k] < b[k]
  {
    if b == [] {
    } else if a == [] {
      assert a == b[..0];
    } else if a[0] != b[0] {
      SameHeadWhenPrefix(a, b);
      if LexLess(a, b) {
        assert a[..0] == b[..0];
      }
      forall k | 0 < k < |a| && k < |b|
        ensures a[..k] != b[..k]
      {
        SameHeadWhenSamePrefix(a, b, k);
      }
    } else {
      var a', b' := a[1..], b[1..];
      LexLessIsStringComparison(a', b');
      assert a < b <==> a' < b' by {
        if a < b {
          assert a' == b[..|a|][1..] == b'[..|a'|];
        }
        if a' < b' {
          assert a == [a[0]] + a' && b == [b[0]] + b';
          assert a == b[..|a|];
        }
      }
      if k :| 0 <= k < |a'| && k < |b'| && a'[..k] == b'[..k] && a'[k] < b'[k] {
        assert a == [a[0]] + a' && b == [b[0]] + b';
        assert a[..k + 1] == [a[0]] + a'[..k];
        assert b[..k + 1] == [b[0]] + b'[..k];
        assert a[k + 1] < b[k + 1];
      }
      if k :| 0 <= k < |a| && k < |b| && a[..k] == b[..k] && a[k] < b[k] {
        assert k != 0;
        assert a'[..k - 1] == a[..k][1..] == b[..k][1..] == b'[..k - 1];
        assert a'[k - 1] < b'[k - 1];
      }
    }
  }

  lemma SameHeadWhenPrefix(a: string, b: string)
    requires a != []
    ensures a < b ==> a[0] == b[0]
  {
    if a < b {
      assert a[0] == b[..|a|][0];
    }
  }

  lemma SameHeadWhenSamePrefix(a: string, b: string, k: nat)
    requires 0 < k <= |a| && k <= |b|
    ensures a[..k] == b[..k] ==> a[0] == b[0]
  {
    if a[..k] == b[..k] {
      assert a[..k][0] == b[..k][0];
    }
  }

  lemma {:induction false} LexLessIrreflexive(a: string)
    ensures !LexLess(a, a)
  {
    if a != [] {
      LexLessIrreflexive(a[1..]);
    }
  }

  lemma {:induction false} LexLessTransitive(a: string, b: string, c: string)
    requires LexLess(a, b) && LexLess(b, c)
    ensures LexLess(a, c)
  {
    if a != [] && a[0] == b[0] && b[0] == c[0] {
      LexLessTransitive(a[1..], b[1..], c[1..]);
    }
  }

  /** Any two different strings are ordered one way or the other. */
  lemma {:induction false} LexLessTotal(a: string, b: string)
    ensures a == b || LexLess(a, b) || LexLess(b, a)
  {
    if a != [] && b != [] && a[0] == b[0] {
      LexLessTotal(a[1..], b[1..]);
      if a[1..] == b[1..] {
        assert a == [a[0]] + a[1..] && b == [b[0]] + b[1..];
      }
    }
  }

  /** The empty string is below every other string and above none. */
  lemma EmptyIsLeast(s: string)
    ensures LexLess([], s) <==> s != []
    ensures !LexLess(s, [])
  {
  }

  /** Comparing concatenations whose first parts have the same length
      compares the first parts, and only on a tie the second parts. */
  lemma {:induction false} LexLessAppend(x1: string, y1: string, x2: string, y2: string)
    requires |x1| == |x2|
    ensures LexLess(x1 + y1, x2 + y2) <==> LexLess(x1, x2) || (x1 == x2 && LexLess(y1, y2))
  {
    if x1 == [] {
      assert x1 + y1 == y1 && x2 + y2 == y2;
    } else {
      assert (x1 + y1)[0] == x1[0] && (x2 + y2)[0] == x2[0];
      assert (x1 + y1)[1..] == x1[1..] + y1 && (x2 + y2)[1..] == x2[1..] + y2;
      LexLessAppend(x1[1..], y1, x2[1..], y2);
      if x1[0] == x2[0] {
        assert x1 == x2 <==> x1[1..] == x2[1..] by {
          assert x1 == [x1[0]] + x1[1..] && x2 == [x2[0]] + x2[1..];
        }
      }
    }
  }

  lemma LeadingDigitDominates(da: nat, ra: nat, db: nat, rb: nat, p: nat)
    requires da < db && ra < p
    ensures da * p + ra < db * p + rb
  {
    calc {
      da * p + ra;
    <
      da * p + p;
    ==
      (da + 1) * p;
    <=  { MulLeft(da + 1, db, p); }
      db * p;
    }
  }

  lemma MulLeft(x: nat, y: nat, p: nat)
    requires x <= y
    ensures x * p <= y * p
  {
  }

  /** On digit strings of one length, the string order is the numeric order. */
  lemma {:induction false} LexLessDigits(a: string, b: string)
    requires |a| == |b| && AllDigits(a) && AllDigits(b)
    ensures LexLess(a, b) <==> DigitsValue(a) < DigitsValue(b)
  {
    if a != [] {
      var p := Pow10(|a| - 1);
      DigitsValueFront(a);
      DigitsValueFront(b);
      DigitsValueBound(a[1..]);
      DigitsValueBound(b[1..]);
      var da, db := DigitValue(a[0]), DigitValue(b[0]);
      if a[0] < b[0] {
        LeadingDigitDominates(da, DigitsValue(a[1..]), db, DigitsValue(b[1..]), p);
      } else if b[0] < a[0] {
        LeadingDigitDominates(db, DigitsValue(b[1..]), da, DigitsValue(a[1..]), p);
      } else {
        LexLessDigits(a[1..], b[1..]);
      }
    }
  }

  /** Digit strings of one length denote the same number only when equal. */
  lemma DigitsValueInjective(a: string, b: string)
    requires |a| == |b| && AllDigits(a) && AllDigits(b)
    ensures DigitsValue(a) == DigitsValue(b) <==> a == b
  {
    LexLessTotal(a, b);
    LexLessDigits(a, b);
    LexLessDigits(b, a);
  }
}
